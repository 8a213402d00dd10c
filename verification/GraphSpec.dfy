/** Weighted directed graphs as values: walks, acyclicity, outbound sums, and where ranking flows. */
module GraphSpec {
  import opened Sums

  const TWO_32: nat := 0x1_0000_0000

  type uint32 = n: int | 0 <= n < TWO_32

  type Key = string

  datatype Node = Node(pubkey: Key, ranking: real, outbound: real)

  type Edges = map<uint32, map<uint32, real>>

  predicate Edge(edges: Edges, a: uint32, b: uint32) {
    a in edges && b in edges[a]
  }

  function Weight(edges: Edges, a: uint32, b: uint32): real {
    if Edge(edges, a, b) then edges[a][b] else 0.0
  }

  function WithEdge(edges: Edges, s: uint32, t: uint32, weight: real): Edges {
    edges[s := (if s in edges then edges[s] else map[])[t := Weight(edges, s, t) + weight]]
  }

  ghost function OutSum(edges: Edges, s: uint32): real {
    if s in edges then Sum(edges[s].Keys, t => Weight(edges, s, t)) else 0.0
  }

  // ---------- walks ----------

  ghost predicate Walk(edges: Edges, p: seq<uint32>) {
    |p| > 0 && forall i :: 0 <= i < |p| - 1 ==> Edge(edges, p[i], p[i + 1])
  }

  ghost predicate Reachable(edges: Edges, a: uint32, b: uint32) {
    exists p :: Walk(edges, p) && p[0] == a && p[|p| - 1] == b
  }

  /** No walk of at least one edge comes back to where it started. */
  ghost predicate Acyclic(edges: Edges) {
    forall p :: Walk(edges, p) && |p| > 1 ==> p[0] != p[|p| - 1]
  }

  lemma StepThenWalk(edges: Edges, a: uint32, b: uint32, c: uint32)
    requires Edge(edges, a, b) && Reachable(edges, b, c)
    ensures Reachable(edges, a, c)
  {
    var p :| Walk(edges, p) && p[0] == b && p[|p| - 1] == c;
    assert Walk(edges, [a] + p);
  }

  lemma StandStill(edges: Edges, a: uint32)
    ensures Reachable(edges, a, a)
  {
    assert Walk(edges, [a]);
  }

  /** What is closed under edges holds every walk that starts in it. */
  lemma {:induction false} StaysInside(edges: Edges, seen: set<uint32>, p: seq<uint32>)
    requires Walk(edges, p) && p[0] in seen
    requires forall v, w :: v in seen && Edge(edges, v, w) ==> w in seen
    ensures p[|p| - 1] in seen
  {
    if |p| > 1 {
      assert Edge(edges, p[0], p[0 + 1]);
      forall i | 0 <= i < |p[1..]| - 1 ensures Edge(edges, p[1..][i], p[1..][i + 1]) {
        assert Edge(edges, p[i + 1], p[i + 1 + 1]);
      }
      StaysInside(edges, seen, p[1..]);
    }
  }

  /** A walk over the new edge from t back to s leaves an old walk from t to s. */
  lemma OldWalk(edges: Edges, s: uint32, t: uint32, weight: real, p: seq<uint32>)
    requires Walk(WithEdge(edges, s, t, weight), p) && p[0] == t && p[|p| - 1] == s
    ensures Reachable(edges, t, s)
  {
    var edges' := WithEdge(edges, s, t, weight);
    var i: nat := 0;
    while i < |p| - 1 && p[i] != s
      invariant i < |p| && forall j :: 0 <= j < i ==> p[j] != s
    {
      i := i + 1;
    }
    var q := p[..i + 1];
    forall j | 0 <= j < |q| - 1 ensures Edge(edges, q[j], q[j + 1]) {
      assert Edge(edges', p[j], p[j + 1]);
    }
    assert Walk(edges, q) && q[0] == t && q[|q| - 1] == s;
  }

  /** A cycle over the new edge, cut at that edge, is a walk from t back to s. */
  lemma CutCycle(edges: Edges, p: seq<uint32>, i: nat, s: uint32, t: uint32) returns (q: seq<uint32>)
    requires Walk(edges, p) && i < |p| - 1 && p[0] == p[|p| - 1] && p[i] == s && p[i + 1] == t
    ensures Walk(edges, q) && q[0] == t && q[|q| - 1] == s
  {
    q := p[i + 1..] + p[1..i + 1];
    var n := |p| - i - 1;
    forall j | 0 <= j < |q| - 1 ensures Edge(edges, q[j], q[j + 1]) {
      if j < n - 1 {
        assert Edge(edges, p[i + 1 + j], p[i + 1 + j + 1]);
      } else {
        assert Edge(edges, p[j - n + 1], p[j - n + 1 + 1]);
      }
    }
  }

  /** Adding an edge to an acyclic graph keeps it acyclic exactly when its ends differ and t does not lead to s. */
  lemma EdgeKeepsAcyclicIff(edges: Edges, s: uint32, t: uint32, weight: real)
    requires Acyclic(edges)
    ensures Acyclic(WithEdge(edges, s, t, weight)) <==> s != t && !Reachable(edges, t, s)
  {
    var edges' := WithEdge(edges, s, t, weight);
    if s == t {
      assert Edge(edges', s, t);
      assert Walk(edges', [s, t]);
    } else if Reachable(edges, t, s) {
      var p :| Walk(edges, p) && p[0] == t && p[|p| - 1] == s;
      var q := [s] + p;
      forall i | 0 <= i < |q| - 1 ensures Edge(edges', q[i], q[i + 1]) {
        if i > 0 {
          assert Edge(edges, p[i - 1], p[i - 1 + 1]);
        }
      }
      assert Walk(edges', q);
    } else {
      forall p | Walk(edges', p) && |p| > 1 ensures p[0] != p[|p| - 1] {
        if p[0] == p[|p| - 1] {
          NewCycle(edges, s, t, weight, p);
        }
      }
    }
  }

  lemma NewCycle(edges: Edges, s: uint32, t: uint32, weight: real, p: seq<uint32>)
    requires Acyclic(edges) && Walk(WithEdge(edges, s, t, weight), p) && |p| > 1 && p[0] == p[|p| - 1]
    ensures Reachable(edges, t, s)
  {
    if i :| 0 <= i < |p| - 1 && p[i] == s && p[i + 1] == t {
      var q := CutCycle(WithEdge(edges, s, t, weight), p, i, s, t);
      OldWalk(edges, s, t, weight, q);
    } else {
      forall i | 0 <= i < |p| - 1 ensures Edge(edges, p[i], p[i + 1]) {
        assert Edge(WithEdge(edges, s, t, weight), p[i], p[i + 1]);
      }
      assert Walk(edges, p);
    }
  }

  // ---------- keys and nodes ----------

  /** The index numbers the keys 0, 1, ..., and each node carries the key with its number. */
  ghost predicate Indexed(index: map<Key, uint32>, nodes: map<uint32, Node>) {
    && (forall i: uint32 :: i in nodes <==> i < |index|)
    && (forall k :: k in index ==> index[k] in nodes && nodes[index[k]].pubkey == k)
    && (forall i :: i in nodes ==> nodes[i].pubkey in index && index[nodes[i].pubkey] == i)
  }

  /** Edges run between nodes. */
  ghost predicate Within(edges: Edges, nodes: map<uint32, Node>) {
    && (forall a :: a in edges ==> a in nodes)
    && (forall a, b :: Edge(edges, a, b) ==> b in nodes)
  }

  ghost predicate OutboundRight(edges: Edges, nodes: map<uint32, Node>) {
    forall i :: i in nodes ==> nodes[i].outbound == OutSum(edges, i)
  }

  function Numbered(index: map<Key, uint32>, k: Key): map<Key, uint32>
    requires |index| < TWO_32
  {
    if k in index then index else index[k := |index|]
  }

  /** The descendant test: both keys are known and a walk leads from one to the other. */
  ghost predicate Descends(index: map<Key, uint32>, edges: Edges, parent: Key, descendant: Key) {
    parent in index && descendant in index && Reachable(edges, index[parent], index[descendant])
  }

  /** No walk comes to a node without edges, or leaves it, but the one that stands still. */
  lemma {:induction false} Isolated(edges: Edges, nodes: map<uint32, Node>, a: uint32, b: uint32)
    requires Within(edges, nodes) && Reachable(edges, a, b) && a != b
    ensures a in nodes && b in nodes
  {
    var p :| Walk(edges, p) && p[0] == a && p[|p| - 1] == b;
    assert Edge(edges, p[0], p[0 + 1]);
    assert Edge(edges, p[|p| - 2], p[|p| - 2 + 1]);
  }

  /** Linking two keys with the test on (target, source) keeps an acyclic graph acyclic, and without it does not. */
  lemma TestDecides(index: map<Key, uint32>, nodes: map<uint32, Node>, edges: Edges, index': map<Key, uint32>,
                    source: Key, target: Key, weight: real)
    requires |index| + 2 <= TWO_32 && Indexed(index, nodes) && Within(edges, nodes) && Acyclic(edges)
    requires index' == Numbered(Numbered(index, source), target)
    ensures Acyclic(WithEdge(edges, index'[source], index'[target], weight)) <==>
              source != target && !Descends(index, edges, target, source)
  {
    var s, t := index'[source], index'[target];
    EdgeKeepsAcyclicIff(edges, s, t, weight);
    if source in index && target in index {
      assert s == t ==> nodes[s].pubkey == source && nodes[s].pubkey == target;
    } else if s != t && Reachable(edges, t, s) {
      Isolated(edges, nodes, t, s);
    }
  }

  lemma NumberedKeeps(index: map<Key, uint32>, nodes: map<uint32, Node>, k: Key)
    requires |index| < TWO_32 && Indexed(index, nodes) && k !in index
    ensures Indexed(Numbered(index, k), nodes[|index| := Node(k, 0.0, 0.0)])
  {
  }

  /** A new weight on an edge raises its source's sum by as much, and no other sum. */
  lemma OutSumAfter(edges: Edges, s: uint32, t: uint32, weight: real, i: uint32)
    ensures OutSum(WithEdge(edges, s, t, weight), i) == OutSum(edges, i) + (if i == s then weight else 0.0)
  {
    var edges' := WithEdge(edges, s, t, weight);
    var weight0, weight1 := (j: uint32) => Weight(edges, i, j), (j: uint32) => Weight(edges', i, j);
    if i != s {
      if i in edges {
        SumSame(edges[i].Keys, weight0, weight1);
      }
    } else {
      var before: set<uint32> := if s in edges then edges[s].Keys else {};
      assert edges'[s].Keys == before + {t};
      SumTake(edges'[s].Keys, t, weight1);
      assert edges'[s].Keys - {t} == before - {t};
      SumSame(before - {t}, weight1, weight0);
      if t in before {
        SumTake(before, t, weight0);
      } else {
        assert before - {t} == before;
      }
    }
  }

  lemma NumberedSize(index: map<Key, uint32>, k: Key)
    requires |index| < TWO_32
    ensures k in Numbered(index, k) && |Numbered(index, k)| <= |index| + 1
    ensures forall x :: x in index ==> x in Numbered(index, k)
  {
  }

  lemma NumberedNode(index: map<Key, uint32>, nodes: map<uint32, Node>, k: Key)
    requires Indexed(index, nodes) && k in index
    ensures index[k] in nodes
  {
  }

  lemma InternedTwice(index: map<Key, uint32>, index1: map<Key, uint32>, nodes: map<uint32, Node>,
                      nodes1: map<uint32, Node>, nodes2: map<uint32, Node>, source: Key, target: Key)
    requires |index| + 2 <= TWO_32 && Indexed(index, nodes) && index1 == Numbered(index, source) && |index1| < TWO_32
    requires nodes1 == if source in index then nodes else nodes[|index| := Node(source, 0.0, 0.0)]
    requires nodes2 == if target in index1 then nodes1 else nodes1[|index1| := Node(target, 0.0, 0.0)]
    ensures source in Numbered(index1, target) && target in Numbered(index1, target)
    ensures nodes.Keys <= nodes2.Keys
    ensures forall i :: i in nodes2 ==> nodes2[i].ranking == if i in nodes then nodes[i].ranking else 0.0
  {
  }

  lemma LinkKeeps(index: map<Key, uint32>, nodes: map<uint32, Node>, edges: Edges, s: uint32, t: uint32, weight: real)
    requires Indexed(index, nodes) && Within(edges, nodes) && OutboundRight(edges, nodes)
    requires s in nodes && t in nodes
    ensures var nodes' := nodes[s := nodes[s].(outbound := nodes[s].outbound + weight)];
      var edges' := WithEdge(edges, s, t, weight);
      Indexed(index, nodes') && Within(edges', nodes') && OutboundRight(edges', nodes')
  {
    var nodes' := nodes[s := nodes[s].(outbound := nodes[s].outbound + weight)];
    var edges' := WithEdge(edges, s, t, weight);
    forall a, b | Edge(edges', a, b) ensures b in nodes' {
      if a != s || b != t {
        assert Edge(edges, a, b);
      }
    }
    forall i | i in nodes' ensures nodes'[i].outbound == OutSum(edges', i) {
      OutSumAfter(edges, s, t, weight, i);
    }
  }

  // ---------- ranking ----------

  /** The share of its ranking that s passes on to t; a node with nothing outbound passes nothing on. */
  function Share(nodes: map<uint32, Node>, edges: Edges, s: uint32, t: uint32): real {
    if s in nodes && nodes[s].outbound > 0.0 then Weight(edges, s, t) / nodes[s].outbound else 0.0
  }

  function RankingOf(nodes: map<uint32, Node>, i: uint32): real {
    if i in nodes then nodes[i].ranking else 0.0
  }

  function Flow(alpha: real, nodes: map<uint32, Node>, edges: Edges, s: uint32, t: uint32): real {
    alpha * RankingOf(nodes, s) * Share(nodes, edges, s, t)
  }

  function Leaking(nodes: map<uint32, Node>, i: uint32): real {
    if i in nodes && nodes[i].outbound == 0.0 then nodes[i].ranking else 0.0
  }

  function Lost(nodes: map<uint32, Node>, i: uint32): real {
    if i in nodes && nodes[i].outbound < 0.0 then nodes[i].ranking else 0.0
  }

  ghost function TotalRanking(nodes: map<uint32, Node>): real {
    Sum(nodes.Keys, i => RankingOf(nodes, i))
  }

  /** What every node gets: its part of the undamped mass and of what leaks from nodes with nothing outbound. */
  ghost function Base(alpha: real, nodes: map<uint32, Node>): real {
    if nodes == map[] then 0.0
    else ((1.0 - alpha) + alpha * Sum(nodes.Keys, i => Leaking(nodes, i))) / |nodes| as real
  }

  /** The ranking of t after one iteration. */
  ghost function NextRanking(alpha: real, nodes: map<uint32, Node>, edges: Edges, t: uint32): real {
    Sum(nodes.Keys, s => Flow(alpha, nodes, edges, s, t)) + Base(alpha, nodes)
  }

  lemma {:induction false} SumConstant(s: set<uint32>, c: real)
    ensures Sum(s, _ => c) == |s| as real * c
  {
    if s != {} {
      SumConstant(s - {Pick(s)}, c);
      assert |s - {Pick(s)}| == |s| - 1;
    }
  }

  lemma FlowScales(alpha: real, nodes: map<uint32, Node>, edges: Edges, s: uint32, t: uint32, c: real)
    requires s in nodes && nodes[s].outbound > 0.0 && c == alpha * nodes[s].ranking / nodes[s].outbound
    ensures Flow(alpha, nodes, edges, s, t) == c * Weight(edges, s, t)
  {
    hide Weight;
    Regroup(alpha * nodes[s].ranking, Weight(edges, s, t), nodes[s].outbound);
  }

  lemma Regroup(x: real, w: real, d: real)
    requires d > 0.0
    ensures x * (w / d) == x / d * w
  {
  }

  lemma NoFlow(alpha: real, nodes: map<uint32, Node>, edges: Edges, s: uint32, t: uint32)
    requires !Edge(edges, s, t) || s !in nodes || nodes[s].outbound <= 0.0
    ensures Flow(alpha, nodes, edges, s, t) == 0.0
  {
  }

  /** A node with something outbound passes on all of its ranking; any other node passes on none. */
  lemma SharesAddUp(alpha: real, nodes: map<uint32, Node>, edges: Edges, s: uint32)
    requires Within(edges, nodes) && OutboundRight(edges, nodes) && s in nodes
    ensures Sum(nodes.Keys, t => Flow(alpha, nodes, edges, s, t))
            == if nodes[s].outbound > 0.0 then alpha * nodes[s].ranking else 0.0
  {
    hide Flow, Weight, Sum;
    var flow := (t: uint32) => Flow(alpha, nodes, edges, s, t);
    if nodes[s].outbound > 0.0 {
      var weight := (t: uint32) => Weight(edges, s, t);
      assert nodes[s].outbound == OutSum(edges, s);
      var out := edges[s].Keys;
      forall t | t in out ensures t in nodes {
        assert Edge(edges, s, t);
      }
      assert nodes.Keys == out + (nodes.Keys - out);
      SumDisjoint(out, nodes.Keys - out, flow);
      forall t | t in nodes.Keys - out ensures flow(t) == 0.0 {
        NoFlow(alpha, nodes, edges, s, t);
      }
      SumZero(nodes.Keys - out, flow);
      var c := alpha * nodes[s].ranking / nodes[s].outbound;
      forall t | t in out ensures flow(t) == c * weight(t) {
        FlowScales(alpha, nodes, edges, s, t, c);
      }
      SumScale(out, c, weight, flow);
      Cancel(alpha * nodes[s].ranking, nodes[s].outbound);
    } else {
      forall t | t in nodes ensures flow(t) == 0.0 {
        NoFlow(alpha, nodes, edges, s, t);
      }
      SumZero(nodes.Keys, flow);
    }
  }

  lemma Cancel(x: real, d: real)
    requires d > 0.0
    ensures x / d * d == x
  {
  }

  /**
   * What one iteration does to the total, whatever the damping: it stays at 1 exactly when nodes with
   * negative outbound hold no ranking (or damping is zero).
   */
  lemma RankingTotalAfter(alpha: real, nodes: map<uint32, Node>, edges: Edges)
    requires Within(edges, nodes) && OutboundRight(edges, nodes) && nodes != map[]
    ensures Sum(nodes.Keys, t => NextRanking(alpha, nodes, edges, t))
            == 1.0 - alpha + alpha * (TotalRanking(nodes) - Sum(nodes.Keys, i => Lost(nodes, i)))
  {
    hide Flow, Leaking, Lost, RankingOf, Base, Sum, NextRanking;
    var keys := nodes.Keys;
    var row := (s: uint32) => Sum(keys, t => Flow(alpha, nodes, edges, s, t));
    var column := (t: uint32) => Sum(keys, s => Flow(alpha, nodes, edges, s, t));
    var base := (_: uint32) => Base(alpha, nodes);
    FlowsAddUp(alpha, nodes, edges, row, column);
    NextIsSum(alpha, nodes, edges, column);
    SumPlus(keys, column, base, t => NextRanking(alpha, nodes, edges, t));
    SumConstant(keys, Base(alpha, nodes));
    BaseTotal(alpha, nodes);
    KeptTotal(alpha, nodes, edges, row);
  }

  lemma FlowsAddUp(alpha: real, nodes: map<uint32, Node>, edges: Edges, row: uint32 -> real, column: uint32 -> real)
    requires forall s :: row(s) == Sum(nodes.Keys, t => Flow(alpha, nodes, edges, s, t))
    requires forall t :: column(t) == Sum(nodes.Keys, s => Flow(alpha, nodes, edges, s, t))
    ensures Sum(nodes.Keys, row) == Sum(nodes.Keys, column)
  {
    hide Flow, Sum;
    var keys := nodes.Keys;
    var flow := (s: uint32) => (t: uint32) => Flow(alpha, nodes, edges, s, t);
    forall s | s in keys ensures row(s) == Sum(keys, flow(s)) {
      SumSame(keys, t => Flow(alpha, nodes, edges, s, t), flow(s));
    }
    forall t | t in keys ensures column(t) == ColumnSum(keys, flow, t) {
      ColumnSumIs(keys, flow, t, s => Flow(alpha, nodes, edges, s, t));
    }
    SumSwap(keys, keys, flow, row, column);
  }

  lemma NextIsSum(alpha: real, nodes: map<uint32, Node>, edges: Edges, column: uint32 -> real)
    requires forall t :: column(t) == Sum(nodes.Keys, s => Flow(alpha, nodes, edges, s, t))
    ensures forall t :: NextRanking(alpha, nodes, edges, t) == column(t) + Base(alpha, nodes)
  {
    hide Sum, Flow, Base;
  }

  lemma BaseTotal(alpha: real, nodes: map<uint32, Node>)
    requires nodes != map[]
    ensures |nodes.Keys| as real * Base(alpha, nodes) == 1.0 - alpha + alpha * Sum(nodes.Keys, i => Leaking(nodes, i))
  {
    hide Sum, Leaking;
    var x := 1.0 - alpha + alpha * Sum(nodes.Keys, i => Leaking(nodes, i));
    assert |nodes.Keys| == |nodes| > 0;
    Cancel(x, |nodes| as real);
  }

  /** A node passes on what it neither leaks nor loses. */
  lemma RowKept(alpha: real, nodes: map<uint32, Node>, edges: Edges, s: uint32)
    requires Within(edges, nodes) && OutboundRight(edges, nodes) && s in nodes
    ensures Sum(nodes.Keys, t => Flow(alpha, nodes, edges, s, t))
            == alpha * (RankingOf(nodes, s) - (Leaking(nodes, s) + Lost(nodes, s)))
  {
    SharesAddUp(alpha, nodes, edges, s);
    hide Sum, Flow, Within, OutboundRight;
  }

  lemma KeptTotal(alpha: real, nodes: map<uint32, Node>, edges: Edges, row: uint32 -> real)
    requires Within(edges, nodes) && OutboundRight(edges, nodes)
    requires forall s :: row(s) == Sum(nodes.Keys, t => Flow(alpha, nodes, edges, s, t))
    ensures Sum(nodes.Keys, row) == alpha * (TotalRanking(nodes) - Sum(nodes.Keys, i => Leaking(nodes, i))
                                             - Sum(nodes.Keys, i => Lost(nodes, i)))
  {
    hide Flow, Sum, RankingOf, Leaking, Lost, Within, OutboundRight;
    var keys := nodes.Keys;
    var rank := (i: uint32) => RankingOf(nodes, i);
    var leaking := (i: uint32) => Leaking(nodes, i);
    var lost := (i: uint32) => Lost(nodes, i);
    var idle := (i: uint32) => leaking(i) + lost(i);
    var kept := (i: uint32) => rank(i) - idle(i);
    forall s | s in keys ensures row(s) == alpha * kept(s) {
      RowKept(alpha, nodes, edges, s);
    }
    SumScale(keys, alpha, kept, row);
    SumPlus(keys, kept, idle, rank);
    SumPlus(keys, leaking, lost, idle);
  }

  ghost predicate SharesIn(normalizedWeights: Edges, nodes: map<uint32, Node>, edges: Edges) {
    && (forall s, t :: Edge(normalizedWeights, s, t) ==> Edge(edges, s, t))
    && (forall s, t :: Weight(normalizedWeights, s, t) == Share(nodes, edges, s, t))
  }

  /** The same nodes, up to their rankings. */
  ghost predicate SameNodes(nodes: map<uint32, Node>, nodes': map<uint32, Node>) {
    nodes.Keys == nodes'.Keys && forall i :: i in nodes ==> nodes'[i] == nodes[i].(ranking := nodes'[i].ranking)
  }

  lemma EdgeWithin(edges: Edges, nodes: map<uint32, Node>, s: uint32, t: uint32)
    requires Within(edges, nodes)
    ensures Edge(edges, s, t) ==> t in nodes
  {
  }

  lemma RankingIs(nodes: map<uint32, Node>, i: uint32)
    requires i in nodes
    ensures RankingOf(nodes, i) == nodes[i].ranking
  {
  }

  lemma LeakingIs(nodes: map<uint32, Node>, now: map<uint32, Node>, i: uint32)
    requires SameNodes(nodes, now) && i in now && now[i].ranking == RankingOf(nodes, i)
    ensures Leaking(nodes, i) == if now[i].outbound == 0.0 then now[i].ranking else 0.0
  {
  }

  lemma RankingSet(nodes: map<uint32, Node>, now: map<uint32, Node>, i: uint32, r: real)
    requires SameNodes(nodes, now) && i in now
    ensures var next := now[i := now[i].(ranking := r)];
      SameNodes(nodes, next) && forall t :: RankingOf(next, t) == if t == i then r else RankingOf(now, t)
  {
  }

  lemma RowNormalized(normalizedWeights: Edges, nodes: map<uint32, Node>, edges: Edges, s: uint32,
                      row: map<uint32, real>)
    requires s in edges && row.Keys == edges[s].Keys && forall t :: t in row ==> row[t] == Share(nodes, edges, s, t)
    ensures var next := normalizedWeights[s := row];
      && (forall a, t :: Edge(next, a, t) <==> if a == s then Edge(edges, s, t) else Edge(normalizedWeights, a, t))
      && (forall a, t :: Weight(next, a, t) ==
            if a == s then Share(nodes, edges, s, t) else Weight(normalizedWeights, a, t))
  {
    forall t ensures t !in row ==> Share(nodes, edges, s, t) == 0.0 {
    }
  }

  /** What crosses an edge: the source's ranking times its normalised weight. */
  lemma CrossesEdge(alpha: real, nodes: map<uint32, Node>, edges: Edges, normalizedWeights: Edges, s: uint32, t: uint32)
    requires SharesIn(normalizedWeights, nodes, edges)
    ensures Edge(normalizedWeights, s, t) ==>
              Edge(edges, s, t) && alpha * RankingOf(nodes, s) * normalizedWeights[s][t]
                == Flow(alpha, nodes, edges, s, t)
    ensures !Edge(normalizedWeights, s, t) ==> Flow(alpha, nodes, edges, s, t) == 0.0
  {
    assert Weight(normalizedWeights, s, t) == Share(nodes, edges, s, t);
    hide Share, RankingOf;
  }

  function Abs(x: real): real {
    if x < 0.0 then -x else x
  }

  ghost function Moved(nodes: map<uint32, Node>, nodes': map<uint32, Node>): real {
    Sum(nodes'.Keys, i => Abs(RankingOf(nodes', i) - RankingOf(nodes, i)))
  }

  /** What some of the nodes pass on to t. */
  ghost function Passed(alpha: real, nodes: map<uint32, Node>, edges: Edges, sources: set<uint32>, t: uint32): real {
    Sum(sources, s => Flow(alpha, nodes, edges, s, t))
  }

  lemma NothingPassed(alpha: real, nodes: map<uint32, Node>, edges: Edges)
    ensures nodes.Keys - nodes.Keys == {} && forall t :: Passed(alpha, nodes, edges, {}, t) == 0.0
  {
  }

  lemma PassedStep(alpha: real, nodes: map<uint32, Node>, edges: Edges, done: set<uint32>, s: uint32)
    requires s !in done
    ensures forall t :: Passed(alpha, nodes, edges, done + {s}, t)
                        == Passed(alpha, nodes, edges, done, t) + Flow(alpha, nodes, edges, s, t)
  {
    hide Sum, Flow;
    forall t ensures Passed(alpha, nodes, edges, done + {s}, t)
                     == Passed(alpha, nodes, edges, done, t) + Flow(alpha, nodes, edges, s, t)
    {
      SumTake(done + {s}, s, x => Flow(alpha, nodes, edges, x, t));
      assert done + {s} - {s} == done;
    }
  }

  lemma BaseIs(alpha: real, nodes: map<uint32, Node>, inverse: real, leak: real)
    requires nodes != map[] && |nodes| > 0 && inverse == 1.0 / |nodes| as real
    requires leak == Sum(nodes.Keys, i => Leaking(nodes, i)) * alpha
    ensures (1.0 - alpha) * inverse + leak * inverse == Base(alpha, nodes)
  {
    hide Sum, Leaking;
    Spread(1.0 - alpha, leak, |nodes| as real);
  }

  lemma Spread(a: real, b: real, n: real)
    requires n > 0.0
    ensures a * (1.0 / n) + b * (1.0 / n) == (a + b) / n
  {
  }

  lemma SameNodesMeans(nodes: map<uint32, Node>, nodes': map<uint32, Node>)
    requires SameNodes(nodes, nodes')
    ensures nodes.Keys == nodes'.Keys
  {
  }

  // ---------- where a ranking comes from, on the edges alone ----------

  /** The nodes that pass ranking on to t. */
  ghost function Incoming(nodes: map<uint32, Node>, edges: Edges, t: uint32): set<uint32> {
    set s | s in nodes && Edge(edges, s, t) && OutSum(edges, s) > 0.0
  }

  /** The nodes whose weights cancel out or that have none. */
  ghost function Dangling(nodes: map<uint32, Node>, edges: Edges): set<uint32> {
    set s | s in nodes && OutSum(edges, s) == 0.0
  }

  /** The part of a source's weights that the edge to t has. */
  ghost function Part(edges: Edges, s: uint32, t: uint32): real {
    if OutSum(edges, s) == 0.0 then 0.0 else Weight(edges, s, t) / OutSum(edges, s)
  }

  /**
   * A node's next ranking: what its incoming edges bring, each the damped ranking of its source in
   * proportion to its weight, and an equal part of the undamped mass and of what dangling nodes hold.
   */
  lemma RankingComesFrom(alpha: real, nodes: map<uint32, Node>, edges: Edges, t: uint32)
    requires OutboundRight(edges, nodes) && nodes != map[]
    ensures |nodes| > 0
    ensures NextRanking(alpha, nodes, edges, t)
            == Sum(Incoming(nodes, edges, t), s => alpha * RankingOf(nodes, s) * Part(edges, s, t))
               + (1.0 - alpha + alpha * Sum(Dangling(nodes, edges), s => RankingOf(nodes, s))) / |nodes| as real
  {
    hide Sum, OutSum;
    FlowsComeIn(alpha, nodes, edges, t);
    LeaksDangle(nodes, edges);
    NoNodesLeft(nodes);
  }

  lemma NoNodesLeft(nodes: map<uint32, Node>)
    ensures nodes != map[] ==> |nodes| > 0
  {
  }

  lemma FlowsComeIn(alpha: real, nodes: map<uint32, Node>, edges: Edges, t: uint32)
    requires OutboundRight(edges, nodes)
    ensures Sum(nodes.Keys, s => Flow(alpha, nodes, edges, s, t))
            == Sum(Incoming(nodes, edges, t), s => alpha * RankingOf(nodes, s) * Part(edges, s, t))
  {
    hide Sum, OutSum;
    var all, some := nodes.Keys, Incoming(nodes, edges, t);
    var flow := (s: uint32) => Flow(alpha, nodes, edges, s, t);
    SumDisjoint(some, all - some, flow);
    assert some + (all - some) == all;
    forall s | s in all - some ensures flow(s) == 0.0 {
      NoFlow(alpha, nodes, edges, s, t);
    }
    SumZero(all - some, flow);
    SumSame(some, flow, s => alpha * RankingOf(nodes, s) * Part(edges, s, t));
    SumSame(all, flow, s => Flow(alpha, nodes, edges, s, t));
  }

  lemma LeaksDangle(nodes: map<uint32, Node>, edges: Edges)
    requires OutboundRight(edges, nodes)
    ensures Sum(nodes.Keys, i => Leaking(nodes, i)) == Sum(Dangling(nodes, edges), s => RankingOf(nodes, s))
  {
    hide Sum, OutSum;
    var all, some := nodes.Keys, Dangling(nodes, edges);
    var leaking := (i: uint32) => Leaking(nodes, i);
    SumDisjoint(some, all - some, leaking);
    assert some + (all - some) == all;
    SumZero(all - some, leaking);
    SumSame(some, leaking, s => RankingOf(nodes, s));
    SumSame(all, leaking, i => Leaking(nodes, i));
  }

  // ---------- iterating ----------

  /** Every node at the same ranking, together 1. */
  ghost function Levelled(nodes: map<uint32, Node>): map<uint32, Node> {
    if |nodes| == 0 then nodes else map i | i in nodes :: nodes[i].(ranking := 1.0 / |nodes| as real)
  }

  /** Every node at its next ranking. */
  ghost function Advanced(alpha: real, nodes: map<uint32, Node>, edges: Edges): map<uint32, Node> {
    map i | i in nodes :: nodes[i].(ranking := NextRanking(alpha, nodes, edges, i))
  }

  ghost function Iterated(alpha: real, nodes: map<uint32, Node>, edges: Edges, k: nat): map<uint32, Node> {
    if k == 0 then nodes else Advanced(alpha, Iterated(alpha, nodes, edges, k - 1), edges)
  }

  /** By how much the k-th iteration changes the rankings altogether. */
  ghost function ChangeAt(alpha: real, nodes: map<uint32, Node>, edges: Edges, k: nat): real
    requires k > 0
  {
    Moved(Iterated(alpha, nodes, edges, k - 1), Iterated(alpha, nodes, edges, k))
  }

  /**
   * k iterations from the level start: the first to change the rankings by no more than epsilon is the last,
   * unless the rounds run out before. An epsilon of 1 or more is met at the start.
   */
  ghost predicate RankedIn(alpha: real, epsilon: real, rounds: nat, before: map<uint32, Node>, edges: Edges, k: nat,
                           after: map<uint32, Node>, converged: bool)
  {
    var start := Levelled(before);
    && k <= rounds && after == Iterated(alpha, start, edges, k)
    && (k == 0 <==> epsilon >= 1.0 || rounds == 0)
    && (forall j :: 1 <= j < k ==> ChangeAt(alpha, start, edges, j) > epsilon)
    && (converged <==> if k == 0 then epsilon >= 1.0 else ChangeAt(alpha, start, edges, k) <= epsilon)
    && (k < rounds ==> converged)
  }

  lemma LevelledIs(nodes: map<uint32, Node>, nodes': map<uint32, Node>, inverse: real)
    requires |nodes| > 0 && inverse == 1.0 / |nodes| as real
    requires SameNodes(nodes, nodes') && forall i :: i in nodes' ==> nodes'[i].ranking == inverse
    ensures nodes' == Levelled(nodes)
  {
  }

  lemma AdvancedIs(alpha: real, nodes: map<uint32, Node>, nodes': map<uint32, Node>, edges: Edges)
    requires SameNodes(nodes, nodes')
    requires forall t :: t in nodes' ==> nodes'[t].ranking == NextRanking(alpha, nodes, edges, t)
    ensures nodes' == Advanced(alpha, nodes, edges)
  {
    hide NextRanking;
  }

  lemma IteratedStep(alpha: real, nodes: map<uint32, Node>, edges: Edges, k: nat)
    ensures Iterated(alpha, nodes, edges, 0) == nodes
    ensures Iterated(alpha, nodes, edges, k + 1) == Advanced(alpha, Iterated(alpha, nodes, edges, k), edges)
    ensures ChangeAt(alpha, nodes, edges, k + 1)
            == Moved(Iterated(alpha, nodes, edges, k), Iterated(alpha, nodes, edges, k + 1))
  {
    hide Advanced, Moved;
  }

  /** What the loop has done after k rounds. */
  ghost predicate RankingGoesOn(alpha: real, epsilon: real, before: map<uint32, Node>, edges: Edges, k: nat,
                                now: map<uint32, Node>, delta: real)
  {
    var start := Levelled(before);
    && now == Iterated(alpha, start, edges, k)
    && delta == (if k == 0 then 1.0 else ChangeAt(alpha, start, edges, k))
    && (forall j :: 1 <= j < k ==> ChangeAt(alpha, start, edges, j) > epsilon)
    && (k > 0 ==> epsilon < 1.0)
  }

  lemma RankingBegins(alpha: real, epsilon: real, before: map<uint32, Node>, edges: Edges)
    ensures RankingGoesOn(alpha, epsilon, before, edges, 0, Levelled(before), 1.0)
  {
  }

  lemma RankingStep(alpha: real, epsilon: real, before: map<uint32, Node>, edges: Edges, k: nat,
                    now: map<uint32, Node>, delta: real, next: map<uint32, Node>, delta': real)
    requires RankingGoesOn(alpha, epsilon, before, edges, k, now, delta) && delta > epsilon
    requires next == Advanced(alpha, now, edges) && delta' == Moved(now, next)
    ensures RankingGoesOn(alpha, epsilon, before, edges, k + 1, next, delta')
  {
    hide Advanced, Moved, Levelled, ChangeAt, Iterated;
    IteratedStep(alpha, Levelled(before), edges, k);
  }

  lemma RankingEnds(alpha: real, epsilon: real, rounds: nat, before: map<uint32, Node>, edges: Edges, k: nat,
                    now: map<uint32, Node>, delta: real)
    requires RankingGoesOn(alpha, epsilon, before, edges, k, now, delta)
    requires k <= rounds && (delta <= epsilon || k == rounds)
    ensures RankedIn(alpha, epsilon, rounds, before, edges, k, now, delta <= epsilon)
  {
    hide Levelled, ChangeAt, Iterated;
  }

  /** After all nodes have passed on their ranking, the rankings are those of the next iteration. */
  lemma RankedAgain(alpha: real, nodes: map<uint32, Node>, nodes': map<uint32, Node>, edges: Edges)
    requires Within(edges, nodes) && OutboundRight(edges, nodes) && nodes != map[] && SameNodes(nodes, nodes')
    requires forall t :: t in nodes ==>
               RankingOf(nodes', t) == Passed(alpha, nodes, edges, nodes.Keys, t) + Base(alpha, nodes)
    ensures forall t :: t in nodes' ==> nodes'[t].ranking == NextRanking(alpha, nodes, edges, t)
    ensures TotalRanking(nodes') == 1.0 - alpha + alpha * (TotalRanking(nodes) - Sum(nodes.Keys, i => Lost(nodes, i)))
  {
    hide *;
    SameNodesMeans(nodes, nodes');
    forall t | t in nodes' ensures nodes'[t].ranking == NextRanking(alpha, nodes, edges, t) {
      RankingIs(nodes', t);
      NextIs(alpha, nodes, edges, t);
    }
    RankingTotalAfter(alpha, nodes, edges);
    var next := (t: uint32) => NextRanking(alpha, nodes, edges, t);
    TotalIs(nodes', next);
    SumSame(nodes.Keys, next, t => NextRanking(alpha, nodes, edges, t));
  }

  lemma NextIs(alpha: real, nodes: map<uint32, Node>, edges: Edges, t: uint32)
    ensures NextRanking(alpha, nodes, edges, t) == Passed(alpha, nodes, edges, nodes.Keys, t) + Base(alpha, nodes)
  {
    hide Sum, Flow, Base;
  }

  lemma TotalIs(nodes: map<uint32, Node>, ranking: uint32 -> real)
    requires forall i :: i in nodes ==> nodes[i].ranking == ranking(i)
    ensures TotalRanking(nodes) == Sum(nodes.Keys, ranking)
  {
    SumSame(nodes.Keys, i => RankingOf(nodes, i), ranking);
  }

  lemma StructureStays(nodes: map<uint32, Node>, nodes': map<uint32, Node>, edges: Edges, normalizedWeights: Edges,
                       index: map<Key, uint32>)
    requires Indexed(index, nodes) && Within(edges, nodes) && OutboundRight(edges, nodes)
    requires SameNodes(nodes, nodes') && SharesIn(normalizedWeights, nodes, edges)
    ensures Indexed(index, nodes') && Within(edges, nodes') && OutboundRight(edges, nodes')
    ensures SharesIn(normalizedWeights, nodes', edges)
  {
    SharesStay(nodes, nodes', edges, normalizedWeights);
    hide Share, OutSum, Edge, Weight;
  }

  lemma SharesStay(nodes: map<uint32, Node>, nodes': map<uint32, Node>, edges: Edges, normalizedWeights: Edges)
    requires SameNodes(nodes, nodes') && SharesIn(normalizedWeights, nodes, edges)
    ensures SharesIn(normalizedWeights, nodes', edges)
  {
    forall s, t ensures Weight(normalizedWeights, s, t) == Share(nodes', edges, s, t) {
      assert Weight(normalizedWeights, s, t) == Share(nodes, edges, s, t);
    }
  }

  ghost predicate NothingNegative(nodes: map<uint32, Node>) {
    forall i :: i in nodes ==> nodes[i].outbound >= 0.0
  }

  lemma SameNodesReflexive(nodes: map<uint32, Node>)
    ensures SameNodes(nodes, nodes)
  {
  }

  lemma SameNodesTransitive(a: map<uint32, Node>, b: map<uint32, Node>, c: map<uint32, Node>)
    requires SameNodes(a, b) && SameNodes(b, c)
    ensures SameNodes(a, c)
  {
  }

  lemma SameSize(a: map<uint32, Node>, b: map<uint32, Node>)
    requires SameNodes(a, b)
    ensures |a| == |b|
  {
    assert |a| == |a.Keys| && |b| == |b.Keys|;
  }

  lemma NoNodes(nodes: map<uint32, Node>)
    ensures |nodes| == 0 <==> nodes == map[]
  {
  }

  lemma LevelTotal(nodes: map<uint32, Node>, inverse: real)
    requires |nodes| > 0 && inverse == 1.0 / |nodes| as real
    requires forall i :: i in nodes ==> nodes[i].ranking == inverse
    ensures TotalRanking(nodes) == 1.0
  {
    hide *;
    var level := (_: uint32) => inverse;
    SumConstant(nodes.Keys, inverse);
    SumSame(nodes.Keys, _ => inverse, level);
    TotalIs(nodes, level);
    var n := |nodes.Keys|;
    assert n == |nodes|;
    Cancel(1.0, n as real);
  }

  lemma SameSigns(nodes: map<uint32, Node>, nodes': map<uint32, Node>)
    requires SameNodes(nodes, nodes')
    ensures NothingNegative(nodes) <==> NothingNegative(nodes')
    ensures NothingNegative(nodes') <==> forall i :: i in nodes' ==> nodes'[i].outbound >= 0.0
  {
  }

  lemma NothingLost(nodes: map<uint32, Node>)
    requires NothingNegative(nodes)
    ensures Sum(nodes.Keys, i => Lost(nodes, i)) == 0.0
  {
    SumZero(nodes.Keys, i => Lost(nodes, i));
  }

  lemma AllKept(alpha: real)
    ensures 1.0 - alpha + alpha * (1.0 - 0.0) == 1.0
  {
  }
}
