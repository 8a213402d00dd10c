/** The graph of who represents whom: linking, the descendant test, and ranking. */
module RepGraph {
  import opened Sums
  import opened GraphSpec

  /** The nodes a search has been to: the source's `visited` map, shared by all its calls. */
  class Visited {
    var seen: set<uint32>

    constructor ()
      ensures seen == {}
    {
      seen := {};
    }
  }

  class Graph {
    var index: map<Key, uint32>
    var nodes: map<uint32, Node>
    var edges: Edges

    constructor ()
      ensures Valid() && index == map[] && nodes == map[] && edges == map[]
    {
      index, nodes, edges := map[], map[], map[];
    }

    ghost predicate Valid()
      reads this
    {
      Indexed(index, nodes) && Within(edges, nodes) && OutboundRight(edges, nodes)
    }

    method Reset()
      modifies this
      ensures Valid() && index == map[] && nodes == map[] && edges == map[]
    {
      index, nodes, edges := map[], map[], map[];
    }

    /** Numbers a key that is not known yet. */
    method Intern(key: Key)
      requires Valid() && |index| < TWO_32
      modifies this`index, this`nodes
      ensures Valid() && index == Numbered(old(index), key)
      ensures nodes == if key in old(index) then old(nodes) else old(nodes)[|old(index)| := Node(key, 0.0, 0.0)]
    {
      if key !in index {
        NumberedKeeps(index, nodes, key);
        var i: uint32 := |index|;
        assert i !in edges;
        index := index[key := i];
        nodes := nodes[i := Node(key, 0.0, 0.0)];
      }
    }

    /** Adds weight to the edge between two keys, which become nodes if they are not. */
    method Link(source: Key, target: Key, weight: real)
      requires Valid() && |index| + 2 <= TWO_32
      modifies this
      ensures Valid() && index == Numbered(Numbered(old(index), source), target)
      ensures edges == WithEdge(old(edges), index[source], index[target], weight)
      ensures forall i :: i in nodes ==> nodes[i].ranking == if i in old(nodes) then old(nodes)[i].ranking else 0.0
      ensures old(Acyclic(edges)) ==>
              (Acyclic(edges) <==> source != target && !old(Descends(index, edges, target, source)))
    {
      hide *;
      ghost var index0, nodes0, edges0 := index, nodes, edges;
      ValidMeans();
      NumberedSize(index, source);
      if Acyclic(edges) {
        TestDecides(index, nodes, edges, Numbered(Numbered(index, source), target), source, target, weight);
      }
      Intern(source);
      ValidMeans();
      ghost var index1, nodes1 := index, nodes;
      Intern(target);
      ValidMeans();
      InternedTwice(index0, index1, nodes0, nodes1, nodes, source, target);
      NumberedNode(index, nodes, source);
      NumberedNode(index, nodes, target);
      AddWeight(index[source], index[target], weight);
    }

    method AddWeight(s: uint32, t: uint32, weight: real)
      requires Valid() && s in nodes && t in nodes
      modifies this`nodes, this`edges
      ensures Valid() && edges == WithEdge(old(edges), s, t, weight)
      ensures nodes == old(nodes)[s := old(nodes)[s].(outbound := old(nodes)[s].outbound + weight)]
    {
      hide *;
      ValidMeans();
      LinkKeeps(index, nodes, edges, s, t, weight);
      nodes := nodes[s := nodes[s].(outbound := nodes[s].outbound + weight)];
      AddToEdge(s, t, weight);
      ValidMeans();
    }

    method AddToEdge(s: uint32, t: uint32, weight: real)
      modifies this`edges
      ensures edges == WithEdge(old(edges), s, t, weight)
    {
      if s !in edges {
        edges := edges[s := map[]];
      }
      var row: map<uint32, real> := edges[s][t := Weight(edges, s, t) + weight];
      edges := edges[s := row];
    }

    lemma ValidMeans()
      ensures Valid() <==> Indexed(index, nodes) && Within(edges, nodes) && OutboundRight(edges, nodes)
    {
    }

    /** Whether a walk leads from one known key to another. */
    method IsParentDescendant(parent: Key, descendant: Key) returns (r: bool)
      requires Valid()
      ensures r <==> Descends(index, edges, parent, descendant)
    {
      if parent !in index || descendant !in index {
        return false;
      }
      var visited := new Visited();
      r := Dfs(index[parent], index[descendant], visited);
      if !r && Descends(index, edges, parent, descendant) {
        var p :| Walk(edges, p) && p[0] == index[parent] && p[|p| - 1] == index[descendant];
        StaysInside(edges, visited.seen, p);
      }
    }

    /**
     * Depth-first search, taking the edges of a node in any order. When the target is not found, the nodes
     * newly visited do not include it and lead only to visited nodes.
     */
    method Dfs(current: uint32, target: uint32, visited: Visited) returns (found: bool)
      requires Valid() && current in nodes && current !in visited.seen
      modifies visited
      ensures found ==> Reachable(edges, current, target)
      ensures !found ==> old(visited.seen) + {current} <= visited.seen && target !in visited.seen - old(visited.seen)
      ensures !found ==> forall v, w ::
                v in visited.seen && v !in old(visited.seen) && Edge(edges, v, w) ==> w in visited.seen
      decreases nodes.Keys - visited.seen
    {
      if current == target {
        StandStill(edges, current);
        return true;
      }
      visited.seen := visited.seen + {current};
      var todo := if current in edges then edges[current].Keys else {};
      while todo != {}
        invariant forall w :: w in todo ==> Edge(edges, current, w)
        invariant forall w :: Edge(edges, current, w) && w !in todo ==> w in visited.seen
        invariant old(visited.seen) + {current} <= visited.seen && target !in visited.seen - old(visited.seen)
        invariant forall v, w :: v in visited.seen && v !in old(visited.seen) && v != current && Edge(edges, v, w) ==>
                    w in visited.seen
        decreases todo
      {
        var edge :| edge in todo;
        todo := todo - {edge};
        if edge !in visited.seen {
          found := Dfs(edge, target, visited);
          if found {
            StepThenWalk(edges, current, edge, target);
            return true;
          }
        }
      }
      return false;
    }

    /** The edge weights of every source with something outbound, scaled to add up to 1. */
    method Normalize() returns (normalizedWeights: Edges)
      requires Valid()
      ensures SharesIn(normalizedWeights, nodes, edges)
    {
      hide Share;
      normalizedWeights := map[];
      NoShare(nodes, edges);
      var sources := edges.Keys;
      while sources != {}
        invariant sources <= edges.Keys
        invariant forall s, t :: Edge(normalizedWeights, s, t) ==> s !in sources && Edge(edges, s, t)
        invariant forall s, t :: s !in sources ==> Weight(normalizedWeights, s, t) == Share(nodes, edges, s, t)
        decreases sources
      {
        var source :| source in sources;
        assert source in nodes;
        sources := sources - {source};
        if nodes[source].outbound > 0.0 {
          var row := NormalizeRow(source);
          RowNormalized(normalizedWeights, nodes, edges, source, row);
          normalizedWeights := normalizedWeights[source := row];
        }
      }
    }

    lemma NoShare(nodes: map<uint32, Node>, edges: Edges)
      ensures forall s, t :: s !in edges || s !in nodes || nodes[s].outbound <= 0.0 ==> Share(nodes, edges, s, t) == 0.0
    {
    }

    method NormalizeRow(source: uint32) returns (row: map<uint32, real>)
      requires source in nodes && source in edges && nodes[source].outbound > 0.0
      ensures row.Keys == edges[source].Keys
      ensures forall t :: t in row ==> row[t] == Share(nodes, edges, source, t)
    {
      row := map[];
      var targets := edges[source].Keys;
      while targets != {}
        invariant targets <= edges[source].Keys && row.Keys == edges[source].Keys - targets
        invariant forall t :: t in row ==> row[t] == Share(nodes, edges, source, t)
        decreases targets
      {
        var target :| target in targets;
        targets := targets - {target};
        row := row[target := edges[source][target] / nodes[source].outbound];
      }
    }

    /** Takes every node's ranking away, and adds up what leaks from nodes with nothing outbound. */
    method TakeRankings() returns (before: map<uint32, real>, leak: real)
      modifies this`nodes
      ensures before.Keys == old(nodes).Keys && forall i :: i in before ==> before[i] == RankingOf(old(nodes), i)
      ensures leak == Sum(old(nodes).Keys, i => Leaking(old(nodes), i))
      ensures SameNodes(old(nodes), nodes) && forall i :: RankingOf(nodes, i) == 0.0
    {
      hide Sum, Leaking;
      ghost var nodes0 := nodes;
      ghost var leaking := (i: uint32) => Leaking(nodes0, i);
      SumNothing(leaking);
      before, leak := map[], 0.0;
      var keys := nodes.Keys;
      while keys != {}
        invariant keys <= nodes0.Keys && before.Keys == nodes0.Keys - keys
        invariant forall i :: i in before ==> before[i] == RankingOf(nodes0, i)
        invariant leak + Sum(keys, leaking) == Sum(nodes0.Keys, leaking)
        invariant SameNodes(nodes0, nodes)
        invariant forall i :: RankingOf(nodes, i) == if i in keys then RankingOf(nodes0, i) else 0.0
        decreases keys
      {
        var key :| key in keys;
        RankingSet(nodes0, nodes, key, 0.0);
        SumTake(keys, key, leaking);
        LeakingIs(nodes0, nodes, key);
        keys := keys - {key};
        var value := nodes[key];
        before := before[key := value.ranking];
        if value.outbound == 0.0 {
          leak := leak + value.ranking;
        }
        nodes := nodes[key := value.(ranking := 0.0)];
      }
    }

    /** Passes a node's ranking on along its edges. */
    method PassOn(source: uint32, alpha: real, normalizedWeights: Edges, before: map<uint32, real>,
                  ghost nodes0: map<uint32, Node>)
      requires Within(edges, nodes0) && source in nodes && SharesIn(normalizedWeights, nodes0, edges)
      requires SameNodes(nodes0, nodes) && source in before && before[source] == RankingOf(nodes0, source)
      modifies this`nodes
      ensures SameNodes(nodes0, nodes)
      ensures forall t :: RankingOf(nodes, t) == RankingOf(old(nodes), t) + Flow(alpha, nodes0, edges, source, t)
    {
      hide Flow, Share, RankingOf, Within;
      forall t
        ensures !Edge(normalizedWeights, source, t) ==> Flow(alpha, nodes0, edges, source, t) == 0.0
      {
        CrossesEdge(alpha, nodes0, edges, normalizedWeights, source, t);
      }
      var targets := if source in normalizedWeights then normalizedWeights[source].Keys else {};
      while targets != {}
        invariant SameNodes(nodes0, nodes)
        invariant forall t :: t in targets ==> Edge(normalizedWeights, source, t)
        invariant forall t :: RankingOf(nodes, t) == RankingOf(old(nodes), t)
                                + (if t in targets then 0.0 else Flow(alpha, nodes0, edges, source, t))
        decreases targets
      {
        var target :| target in targets;
        targets := targets - {target};
        CrossesEdge(alpha, nodes0, edges, normalizedWeights, source, target);
        EdgeWithin(edges, nodes0, source, target);
        var received := alpha * before[source] * normalizedWeights[source][target];
        assert received == Flow(alpha, nodes0, edges, source, target);
        RankingIs(nodes, target);
        RankingSet(nodes0, nodes, target, nodes[target].ranking + received);
        nodes := nodes[target := nodes[target].(ranking := nodes[target].ranking + received)];
      }
    }

    /** One iteration: every node's new ranking, and by how much the rankings changed altogether. */
    method Iterate(alpha: real, normalizedWeights: Edges, inverse: real) returns (delta: real)
      requires Valid() && nodes != map[] && inverse == 1.0 / |nodes| as real
      requires SharesIn(normalizedWeights, nodes, edges)
      modifies this`nodes
      ensures Valid() && SameNodes(old(nodes), nodes) && SharesIn(normalizedWeights, nodes, edges)
      ensures forall t :: t in nodes ==> nodes[t].ranking == NextRanking(alpha, old(nodes), edges, t)
      ensures nodes == Advanced(alpha, old(nodes), edges)
      ensures TotalRanking(nodes)
              == 1.0 - alpha + alpha * (TotalRanking(old(nodes)) - Sum(old(nodes).Keys, i => Lost(old(nodes), i)))
      ensures delta == Moved(old(nodes), nodes)
    {
      hide *;
      ghost var nodes0 := nodes;
      ValidMeans();
      var before, leak := TakeRankings();
      leak := leak * alpha;
      BaseIs(alpha, nodes0, inverse, leak);
      PassAllOn(alpha, normalizedWeights, before, (1.0 - alpha) * inverse + leak * inverse, nodes0);
      RankedAgain(alpha, nodes0, nodes, edges);
      AdvancedIs(alpha, nodes0, nodes, edges);
      StructureStays(nodes0, nodes, edges, normalizedWeights, index);
      ValidMeans();
      delta := Change(before, nodes0);
    }

    /** Every node passes its ranking on and gets `base` besides. */
    method PassAllOn(alpha: real, normalizedWeights: Edges, before: map<uint32, real>, base: real,
                     ghost nodes0: map<uint32, Node>)
      requires Within(edges, nodes0) && SharesIn(normalizedWeights, nodes0, edges) && SameNodes(nodes0, nodes)
      requires before.Keys == nodes0.Keys && forall i :: i in before ==> before[i] == RankingOf(nodes0, i)
      requires forall i :: RankingOf(nodes, i) == 0.0
      modifies this`nodes
      ensures SameNodes(nodes0, nodes)
      ensures forall t :: t in nodes0 ==> RankingOf(nodes, t) == Passed(alpha, nodes0, edges, nodes0.Keys, t) + base
    {
      hide *;
      var sources := nodes.Keys;
      SameNodesMeans(nodes0, nodes);
      NothingPassed(alpha, nodes0, edges);
      ghost var done: set<uint32> := {};
      while sources != {}
        invariant SameNodes(nodes0, nodes) && nodes0.Keys == nodes.Keys
        invariant sources !! done && sources + done == nodes0.Keys
        invariant forall t :: t in nodes0 ==> RankingOf(nodes, t) == Passed(alpha, nodes0, edges, done, t)
                                                + (if t in done then base else 0.0)
        decreases sources
      {
        var source :| source in sources;
        PassedStep(alpha, nodes0, edges, done, source);
        sources := sources - {source};
        PassOn(source, alpha, normalizedWeights, before, nodes0);
        SameNodesMeans(nodes0, nodes);
        RankingIs(nodes, source);
        var ranking := nodes[source].ranking + base;
        RankingSet(nodes0, nodes, source, ranking);
        nodes := nodes[source := nodes[source].(ranking := ranking)];
        SameNodesMeans(nodes0, nodes);
        done := done + {source};
      }
    }

    /** The sum of the absolute changes. */
    method Change(before: map<uint32, real>, ghost nodes0: map<uint32, Node>) returns (delta: real)
      requires SameNodes(nodes0, nodes) && before.Keys == nodes0.Keys
      requires forall i :: i in before ==> before[i] == RankingOf(nodes0, i)
      ensures delta == Moved(nodes0, nodes)
    {
      ghost var now := nodes;
      ghost var moved := (i: uint32) => Abs(RankingOf(now, i) - RankingOf(nodes0, i));
      delta := 0.0;
      var keys := nodes.Keys;
      while keys != {}
        invariant keys <= nodes.Keys && delta + Sum(keys, moved) == Sum(nodes.Keys, moved)
        decreases keys
      {
        var key :| key in keys;
        SumTake(keys, key, moved);
        keys := keys - {key};
        delta := delta + Abs(nodes[key].ranking - before[key]);
      }
      SumSame(now.Keys, moved, i => Abs(RankingOf(now, i) - RankingOf(nodes0, i)));
    }

    /** Gives every node the same ranking. */
    method Level(inverse: real)
      modifies this`nodes
      ensures SameNodes(old(nodes), nodes) && forall i :: i in nodes ==> nodes[i].ranking == inverse
    {
      ghost var nodes0 := nodes;
      var keys := nodes.Keys;
      while keys != {}
        invariant SameNodes(nodes0, nodes) && keys <= nodes.Keys
        invariant forall i :: i in nodes && i !in keys ==> nodes[i].ranking == inverse
        decreases keys
      {
        var key :| key in keys;
        keys := keys - {key};
        nodes := nodes[key := nodes[key].(ranking := inverse)];
      }
    }

    /**
     * Ranks all nodes, iterating until the rankings change by no more than epsilon, at most `rounds` times.
     * The rankings are those of so many iterations from the level start. When no node's outbound is negative
     * they add up to exactly 1, converged or not.
     */
    method Rank(alpha: real, epsilon: real, rounds: nat) returns (converged: bool)
      requires Valid()
      modifies this`nodes
      ensures Valid() && SameNodes(old(nodes), nodes)
      ensures nodes != map[] && (forall i :: i in nodes ==> nodes[i].outbound >= 0.0) ==> TotalRanking(nodes) == 1.0
      ensures old(nodes) == map[] ==> converged && nodes == map[]
      ensures old(nodes) != map[] ==>
                exists k :: RankedIn(alpha, epsilon, rounds, old(nodes), edges, k, nodes, converged)
    {
      hide *;
      ghost var nodes0 := nodes;
      ValidMeans();
      SameNodesReflexive(nodes0);
      if |nodes| == 0 {
        NoNodes(nodes);
        return true;
      }
      var normalizedWeights := Normalize();
      var inverse := 1.0 / |nodes| as real;
      Level(inverse);
      StructureStays(nodes0, nodes, edges, normalizedWeights, index);
      SameNodesMeans(nodes0, nodes);
      SameSize(nodes0, nodes);
      LevelTotal(nodes, inverse);
      LevelledIs(nodes0, nodes, inverse);
      RankingBegins(alpha, epsilon, nodes0, edges);
      ValidMeans();
      var delta := 1.0;
      var round := 0;
      while delta > epsilon && round < rounds
        invariant Valid() && SameNodes(nodes0, nodes) && SharesIn(normalizedWeights, nodes, edges)
        invariant |nodes| == |nodes0| > 0 && inverse == 1.0 / |nodes| as real
        invariant NothingNegative(nodes0) ==> TotalRanking(nodes) == 1.0
        invariant round <= rounds && RankingGoesOn(alpha, epsilon, nodes0, edges, round, nodes, delta)
        decreases rounds - round
      {
        ghost var before, delta0 := nodes, delta;
        NoNodes(nodes);
        delta := Iterate(alpha, normalizedWeights, inverse);
        RankingStep(alpha, epsilon, nodes0, edges, round, before, delta0, nodes, delta);
        SameNodesTransitive(nodes0, before, nodes);
        SameSize(before, nodes);
        if NothingNegative(nodes0) {
          SameSigns(nodes0, before);
          NothingLost(before);
          AllKept(alpha);
        }
        round := round + 1;
      }
      SameSigns(nodes0, nodes);
      RankingEnds(alpha, epsilon, rounds, nodes0, edges, round, nodes, delta);
      return delta <= epsilon;
    }
  }
}
