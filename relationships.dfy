/**
 * The call-graph helpers of Analyzer/relationships.py: folding `(source,
 * target)` edges into an adjacency map, and listing the nodes that are not
 * keys of that map.
 */
module Relationships {
  import opened Sequences

  type Edge = (string, string)

  /** `source` has at least one outgoing edge. */
  predicate HasSource(edges: seq<Edge>, source: string) {
    exists i :: 0 <= i < |edges| && edges[i].0 == source
  }

  /** The targets of the edges leaving `source`, in edge order, repeats kept. */
  function TargetsOf(edges: seq<Edge>, source: string): seq<string> {
    if edges == [] then []
    else
      var e := edges[|edges| - 1];
      TargetsOf(edges[..|edges| - 1], source) + (if e.0 == source then [e.1] else [])
  }

  /** The map `analyze_relationships` builds, edge by edge. */
  function Adjacency(edges: seq<Edge>): map<string, seq<string>> {
    if edges == [] then map[]
    else
      var adjacency := Adjacency(edges[..|edges| - 1]);
      var e := edges[|edges| - 1];
      var targets := if e.0 in adjacency then adjacency[e.0] else [];
      adjacency[e.0 := targets + [e.1]]
  }

  /**
   * `analyze_relationships(nodes, edges)`: a key is created for a source the first
   * time it is seen, and each edge's target is appended to its source's list.
   * `nodes` is not used.
   */
  method AnalyzeRelationships(nodes: seq<string>, edges: seq<Edge>) returns (adjacency: map<string, seq<string>>)
    ensures adjacency == Adjacency(edges)
  {
    adjacency := map[];
    for i := 0 to |edges|
      invariant adjacency == Adjacency(edges[..i])
    {
      assert edges[..i + 1][..i] == edges[..i];
      var (source, target) := edges[i];
      if source !in adjacency {
        adjacency := adjacency[source := []];
      }
      adjacency := adjacency[source := adjacency[source] + [target]];
    }
    assert edges[..|edges|] == edges;
  }

  /**
   * The keys are exactly the sources of the edges, and each key maps to its
   * targets in edge order, repeats kept; so no list is empty.
   */
  lemma {:induction false} AdjacencyIsTargets(edges: seq<Edge>)
    ensures forall s :: s in Adjacency(edges) <==> HasSource(edges, s)
    ensures forall s :: s in Adjacency(edges) ==> Adjacency(edges)[s] == TargetsOf(edges, s) && Adjacency(edges)[s] != []
  {
    if edges != [] {
      var prefix := edges[..|edges| - 1];
      var e := edges[|edges| - 1];
      AdjacencyIsTargets(prefix);
      forall s ensures s in Adjacency(edges) <==> HasSource(edges, s) {
        if HasSource(prefix, s) {
          var i :| 0 <= i < |prefix| && prefix[i].0 == s;
          assert edges[i] == prefix[i];
        }
        if HasSource(edges, s) && s != e.0 {
          var i :| 0 <= i < |edges| && edges[i].0 == s;
          assert prefix[i] == edges[i];
        }
      }
      forall s | s in Adjacency(edges) && s != e.0 ensures TargetsOf(edges, s) == TargetsOf(prefix, s) {
        assert TargetsOf(edges, s) == TargetsOf(prefix, s) + [];
      }
      if e.0 !in Adjacency(prefix) {
        assert !HasSource(prefix, e.0);
        TargetsOfAbsent(prefix, e.0);
      }
    }
  }

  /** A node with no outgoing edge has no targets. */
  lemma {:induction false} TargetsOfAbsent(edges: seq<Edge>, s: string)
    requires !HasSource(edges, s)
    ensures TargetsOf(edges, s) == []
  {
    if edges != [] {
      var prefix := edges[..|edges| - 1];
      assert !HasSource(prefix, s) by {
        forall i | 0 <= i < |prefix| ensures prefix[i].0 != s {
          assert prefix[i] == edges[i];
        }
      }
      TargetsOfAbsent(prefix, s);
    }
  }

  /** The distinct sources in order of first appearance: the order of the map's keys. */
  function Sources(edges: seq<Edge>): seq<string> {
    if edges == [] then []
    else
      var prefix := Sources(edges[..|edges| - 1]);
      var s := edges[|edges| - 1].0;
      if s in prefix then prefix else prefix + [s]
  }

  /** The summed lengths of the lists of `keys`. */
  function ListedCount(adjacency: map<string, seq<string>>, keys: seq<string>): nat
    requires forall k :: k in keys ==> k in adjacency
  {
    if keys == [] then 0
    else ListedCount(adjacency, keys[..|keys| - 1]) + |adjacency[keys[|keys| - 1]]|
  }

  predicate Distinct(keys: seq<string>) {
    forall i, j :: 0 <= i < j < |keys| ==> keys[i] != keys[j]
  }

  /** Updating one key's list changes the count over distinct keys by the change in that list's length. */
  lemma {:induction false} ListedCountUpdate(adjacency: map<string, seq<string>>, keys: seq<string>, s: string, l: seq<string>)
    requires forall k :: k in keys ==> k in adjacency
    requires Distinct(keys)
    ensures s in keys ==> ListedCount(adjacency[s := l], keys) + |adjacency[s]| == ListedCount(adjacency, keys) + |l|
    ensures s !in keys ==> ListedCount(adjacency[s := l], keys) == ListedCount(adjacency, keys)
  {
    if keys != [] {
      var prefix := keys[..|keys| - 1];
      var last := keys[|keys| - 1];
      assert Distinct(prefix);
      assert s == last ==> s !in prefix;
      ListedCountUpdate(adjacency, prefix, s, l);
    }
  }

  /** The map's keys in order are the distinct sources, and every edge is in exactly one list. */
  lemma {:induction false} EveryEdgeListedOnce(edges: seq<Edge>)
    ensures Distinct(Sources(edges))
    ensures forall s :: s in Sources(edges) <==> s in Adjacency(edges)
    ensures ListedCount(Adjacency(edges), Sources(edges)) == |edges|
  {
    if edges != [] {
      var prefix := edges[..|edges| - 1];
      var e := edges[|edges| - 1];
      var adjacency := Adjacency(prefix);
      var keys := Sources(prefix);
      EveryEdgeListedOnce(prefix);
      var targets := if e.0 in adjacency then adjacency[e.0] else [];
      ListedCountUpdate(adjacency, keys, e.0, targets + [e.1]);
      if e.0 !in keys {
        var keys' := keys + [e.0];
        assert keys'[..|keys'| - 1] == keys;
      }
    }
  }

  // ---------------------------------------------------------------------------
  // find_orphans
  // ---------------------------------------------------------------------------

  /** The test `find_orphans` applies: not a key of the map. */
  function NotKeyOf(adjacency: map<string, seq<string>>): string -> bool {
    (n: string) => n !in adjacency
  }

  /** What `find_orphans` keeps: the nodes that are not keys of the map, in order, repeats kept. */
  function Orphans(nodes: seq<string>, adjacency: map<string, seq<string>>): seq<string> {
    Filter(nodes, NotKeyOf(adjacency))
  }

  /** `find_orphans(nodes, adjacency)` */
  method FindOrphans(nodes: seq<string>, adjacency: map<string, seq<string>>) returns (orphans: seq<string>)
    ensures orphans == Orphans(nodes, adjacency)
  {
    orphans := [];
    for i := 0 to |nodes|
      invariant orphans == Orphans(nodes[..i], adjacency)
    {
      assert nodes[..i + 1][..i] == nodes[..i];
      var node := nodes[i];
      if node !in adjacency {
        orphans := orphans + [node];
      }
    }
    assert nodes[..|nodes|] == nodes;
  }

  /**
   * Over the map built from `edges`, the orphans are the nodes without an
   * outgoing edge, whether or not anything calls them.
   */
  lemma OrphansHaveNoOutgoingEdge(nodes: seq<string>, edges: seq<Edge>)
    ensures |Orphans(nodes, Adjacency(edges))| <= |nodes|
    ensures forall n :: n in Orphans(nodes, Adjacency(edges)) <==> n in nodes && !HasSource(edges, n)
  {
    AdjacencyIsTargets(edges);
    FilterMembers(nodes, NotKeyOf(Adjacency(edges)));
  }

  /** A node that is only ever a target is an orphan. */
  lemma TargetOnlyIsOrphan(nodes: seq<string>, edges: seq<Edge>, n: string)
    requires n in nodes && !HasSource(edges, n)
    ensures n in Orphans(nodes, Adjacency(edges))
  {
    OrphansHaveNoOutgoingEdge(nodes, edges);
  }

  /** A node with an edge to itself is not an orphan. */
  lemma SelfEdgeIsNotOrphan(nodes: seq<string>, edges: seq<Edge>, n: string)
    requires (n, n) in edges
    ensures n !in Orphans(nodes, Adjacency(edges))
  {
    OrphansHaveNoOutgoingEdge(nodes, edges);
    var i :| 0 <= i < |edges| && edges[i] == (n, n);
    assert HasSource(edges, n);
  }

  /** With an empty map every node is an orphan. */
  lemma {:induction false} EmptyMapAllOrphans(nodes: seq<string>)
    ensures Orphans(nodes, map[]) == nodes
  {
    if nodes != [] {
      EmptyMapAllOrphans(nodes[..|nodes| - 1]);
      assert nodes[..|nodes| - 1] + [nodes[|nodes| - 1]] == nodes;
    }
  }

  // ---------------------------------------------------------------------------
  // Nodes that nothing calls
  // ---------------------------------------------------------------------------

  /** Some edge enters `n`. */
  predicate IsCalled(edges: seq<Edge>, n: string) {
    exists i :: 0 <= i < |edges| && edges[i].1 == n
  }

  function NotCalledIn(edges: seq<Edge>): string -> bool {
    (n: string) => !IsCalled(edges, n)
  }

  /** The nodes no edge enters, in order, repeats kept. */
  function Uncalled(nodes: seq<string>, edges: seq<Edge>): seq<string> {
    Filter(nodes, NotCalledIn(edges))
  }

  /** A node is listed exactly when it occurs and nothing calls it. */
  lemma UncalledMembers(nodes: seq<string>, edges: seq<Edge>)
    ensures |Uncalled(nodes, edges)| <= |nodes|
    ensures forall n :: n in Uncalled(nodes, edges) <==> n in nodes && !IsCalled(edges, n)
  {
    FilterMembers(nodes, NotCalledIn(edges));
  }

  /** A target is listed under `source` exactly when that edge exists. */
  lemma {:induction false} InTargetsOf(edges: seq<Edge>, source: string, n: string)
    ensures n in TargetsOf(edges, source) <==> (source, n) in edges
  {
    if edges != [] {
      var prefix := edges[..|edges| - 1];
      InTargetsOf(prefix, source, n);
      assert edges == prefix + [edges[|edges| - 1]];
    }
  }

  /**
   * The corrected selection read off the map `find_orphans` receives: a node is
   * uncalled exactly when it is listed and occurs in no adjacency list.
   */
  lemma UncalledIsNoTarget(nodes: seq<string>, edges: seq<Edge>)
    ensures forall n :: n in Uncalled(nodes, edges) <==>
      n in nodes && forall s :: s in Adjacency(edges) ==> n !in Adjacency(edges)[s]
  {
    UncalledMembers(nodes, edges);
    forall n ensures n in Uncalled(nodes, edges) <==>
      n in nodes && forall s :: s in Adjacency(edges) ==> n !in Adjacency(edges)[s]
    {
      CalledIffListed(edges, n);
      assert !IsListed(Adjacency(edges), n) <==> forall s :: s in Adjacency(edges) ==> n !in Adjacency(edges)[s];
    }
  }

  /** `n` occurs in some adjacency list. */
  predicate IsListed(adjacency: map<string, seq<string>>, n: string) {
    exists s :: s in adjacency && n in adjacency[s]
  }

  lemma CalledIffListed(edges: seq<Edge>, n: string)
    ensures IsCalled(edges, n) <==> IsListed(Adjacency(edges), n)
  {
    AdjacencyIsTargets(edges);
    if IsCalled(edges, n) {
      var i :| 0 <= i < |edges| && edges[i].1 == n;
      var s := edges[i].0;
      assert HasSource(edges, s);
      assert edges[i] == (s, n) && edges[i] in edges;
      InTargetsOf(edges, s, n);
      assert s in Adjacency(edges) && n in Adjacency(edges)[s];
    }
    if IsListed(Adjacency(edges), n) {
      var s :| s in Adjacency(edges) && n in Adjacency(edges)[s];
      InTargetsOf(edges, s, n);
      var i :| 0 <= i < |edges| && edges[i] == (s, n);
      assert edges[i].1 == n;
    }
  }

  /**
   * With `main` calling `helper`, `find_orphans` reports `helper`, which is
   * called, and not `main`, which nothing calls.
   */
  lemma OrphansOfMainHelper()
    ensures Orphans(["main", "helper"], Adjacency([("main", "helper")])) == ["helper"]
  {
    var edges: seq<Edge> := [("main", "helper")];
    assert edges[..0] == [];
    var adjacency := Adjacency(edges);
    assert adjacency == map[]["main" := [] + ["helper"]];
    assert "main" in adjacency && "helper" !in adjacency;
    var nodes := ["main", "helper"];
    assert nodes[..1] == ["main"] && nodes[..1][..0] == [];
    assert Filter(nodes[..1], NotKeyOf(adjacency)) == [];
  }

  /** With `main` calling `helper`, `main` is the node nothing calls. */
  lemma UncalledOfMainHelper()
    ensures Uncalled(["main", "helper"], [("main", "helper")]) == ["main"]
  {
    var edges: seq<Edge> := [("main", "helper")];
    assert edges[0].1 == "helper";
    assert IsCalled(edges, "helper");
    assert !IsCalled(edges, "main");
    var nodes := ["main", "helper"];
    assert nodes[..1] == ["main"] && nodes[..1][..0] == [];
    assert Filter(nodes[..1], NotCalledIn(edges)) == ["main"];
  }
}
