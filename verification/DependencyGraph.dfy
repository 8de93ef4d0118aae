/** Dependency graphs over step ids: chains, cycles and layerings. */
module DependencyGraph {

  /** Each step id with the ids it depends on. An id that is not a key names a step outside the
      list, which an earlier run has already applied. */
  type Graph = map<string, seq<string>>

  predicate Edge(g: Graph, a: string, b: string) {
    a in g && b in g && b in g[a]
  }

  /** A dependency chain: every id depends on the one after it. */
  ghost predicate Chain(g: Graph, path: seq<string>) {
    && |path| > 0
    && (forall i | 0 <= i < |path| :: path[i] in g)
    && forall i | 0 <= i < |path| - 1 :: Edge(g, path[i], path[i + 1])
  }

  ghost predicate CyclePath(g: Graph, path: seq<string>) {
    Chain(g, path) && |path| > 1 && path[0] == path[|path| - 1]
  }

  ghost predicate OnCycle(g: Graph, id: string) {
    exists path :: CyclePath(g, path) && id in path
  }

  ghost predicate Cyclic(g: Graph) {
    exists path :: CyclePath(g, path)
  }

  /** A numbering in which every dependency sits on a strictly lower level. */
  ghost predicate Layering(g: Graph, level: map<string, nat>) {
    && g.Keys <= level.Keys
    && forall a, b | Edge(g, a, b) :: level[b] < level[a]
  }

  ghost predicate HeldUp(g: Graph, level: map<string, nat>, a: string) {
    a in level && exists b :: Edge(g, a, b) && b in level && level[b] + 1 == level[a]
  }

  /** A layering in which no step could sit lower. */
  ghost predicate Tight(g: Graph, level: map<string, nat>) {
    && Layering(g, level)
    && forall a {:trigger HeldUp(g, level, a)} | a in g && level[a] > 0 :: HeldUp(g, level, a)
  }

  lemma {:induction false} ChainDescends(g: Graph, level: map<string, nat>, path: seq<string>, k: nat)
    requires Layering(g, level) && Chain(g, path) && k < |path|
    ensures level[path[k]] + k <= level[path[0]]
  {
    if k > 0 {
      ChainDescends(g, level, path, k - 1);
      assert Edge(g, path[k - 1], path[k - 1 + 1]);
    }
  }

  lemma LayeringIsAcyclic(g: Graph, level: map<string, nat>)
    requires Layering(g, level)
    ensures !Cyclic(g)
  {
    if path :| CyclePath(g, path) {
      ChainDescends(g, level, path, |path| - 1);
      assert false;
    }
  }

  lemma ChainGrows(g: Graph, a: string, path: seq<string>)
    requires Chain(g, path) && Edge(g, a, path[0])
    ensures Chain(g, [a] + path)
  {
    var p := [a] + path;
    forall i | 0 <= i < |p| - 1 ensures Edge(g, p[i], p[i + 1]) {
      if i > 0 { assert Edge(g, path[i - 1], path[i - 1 + 1]); }
    }
  }

  /** A tight level is the length of the longest dependency chain below the step. */
  lemma {:induction false} LongestChain(g: Graph, level: map<string, nat>, id: string) returns (path: seq<string>)
    requires Tight(g, level) && id in g
    ensures Chain(g, path) && path[0] == id && |path| == level[id] + 1
    ensures forall p | Chain(g, p) && p[0] == id :: |p| <= level[id] + 1
    decreases level[id]
  {
    forall p | Chain(g, p) && p[0] == id ensures |p| <= level[id] + 1 {
      ChainDescends(g, level, p, |p| - 1);
    }
    if level[id] == 0 {
      path := [id];
    } else {
      assert HeldUp(g, level, id);
      var b :| Edge(g, id, b) && b in level && level[b] + 1 == level[id];
      var rest := LongestChain(g, level, b);
      path := [id] + rest;
      ChainGrows(g, id, rest);
    }
  }

  /** No layering puts a step lower than a tight one does. */
  lemma {:induction false} TightIsLowest(g: Graph, level: map<string, nat>, other: map<string, nat>, id: string)
    requires Tight(g, level) && Layering(g, other) && id in g
    ensures level[id] <= other[id]
    decreases level[id]
  {
    if level[id] > 0 {
      assert HeldUp(g, level, id);
      var b :| Edge(g, id, b) && b in level && level[b] + 1 == level[id];
      TightIsLowest(g, level, other, b);
    }
  }

  lemma {:induction false} Pigeonhole(p: seq<string>, s: set<string>)
    requires forall i | 0 <= i < |p| :: p[i] in s
    requires forall i, j | 0 <= i < j < |p| :: p[i] != p[j]
    ensures |p| <= |s|
  {
    if p != [] {
      var last := p[|p| - 1];
      Pigeonhole(p[..|p| - 1], s - {last});
    }
  }

  lemma FindRepeat(p: seq<string>, s: set<string>) returns (i: nat, j: nat)
    requires |p| > |s| && forall i | 0 <= i < |p| :: p[i] in s
    ensures i < j < |p| && p[i] == p[j]
  {
    if forall i, j | 0 <= i < j < |p| :: p[i] != p[j] {
      Pigeonhole(p, s);
      assert false;
    }
    i, j :| 0 <= i < j < |p| && p[i] == p[j];
  }

  ghost predicate WaitsOn(g: Graph, s: set<string>, x: string) {
    exists y :: y in s && Edge(g, x, y)
  }

  /** Every step of the set waits on another step of the set. */
  ghost predicate Stuck(g: Graph, s: set<string>) {
    s <= g.Keys && forall x {:trigger WaitsOn(g, s, x)} | x in s :: WaitsOn(g, s, x)
  }

  lemma {:induction false} WalkInside(g: Graph, s: set<string>, a: string, n: nat) returns (path: seq<string>)
    requires a in s && Stuck(g, s)
    ensures Chain(g, path) && |path| == n + 1 && path[0] == a && forall i | 0 <= i < |path| :: path[i] in s
    decreases n
  {
    if n == 0 {
      path := [a];
    } else {
      assert WaitsOn(g, s, a);
      var b :| b in s && Edge(g, a, b);
      var rest := WalkInside(g, s, b, n - 1);
      path := [a] + rest;
      ChainGrows(g, a, rest);
    }
  }

  lemma SubChain(g: Graph, path: seq<string>, i: nat, j: nat)
    requires Chain(g, path) && i <= j < |path|
    ensures Chain(g, path[i..j + 1])
  {
    var p := path[i..j + 1];
    forall k | 0 <= k < |p| - 1 ensures Edge(g, p[k], p[k + 1]) {
      assert Edge(g, path[i + k], path[i + k + 1]);
    }
  }

  lemma StuckIsCyclic(g: Graph, s: set<string>)
    requires s != {} && Stuck(g, s)
    ensures Cyclic(g)
  {
    var a :| a in s;
    var path := WalkInside(g, s, a, |s|);
    var i, j := FindRepeat(path, s);
    SubChain(g, path, i, j);
    assert CyclePath(g, path[i..j + 1]);
  }

  /** Dropping steps cannot create a cycle. */
  lemma SubgraphAcyclic(g: Graph, part: Graph)
    requires !Cyclic(g)
    requires forall a, b | Edge(part, a, b) :: Edge(g, a, b)
    ensures !Cyclic(part)
  {
    if path :| CyclePath(part, path) {
      forall i | 0 <= i < |path| ensures path[i] in g {
        if i < |path| - 1 { assert Edge(part, path[i], path[i + 1]); }
        else { assert Edge(part, path[i - 1], path[i - 1 + 1]); }
      }
      assert CyclePath(g, path);
    }
  }

  /** Cycles depend on the edges alone. */
  lemma SameEdges(g: Graph, h: Graph)
    requires g.Keys == h.Keys && forall a, b :: Edge(g, a, b) <==> Edge(h, a, b)
    ensures Cyclic(g) <==> Cyclic(h)
    ensures forall id :: OnCycle(g, id) <==> OnCycle(h, id)
  {
    forall path ensures CyclePath(g, path) <==> CyclePath(h, path) {
    }
  }
}
