/** Why ranking with damping 1 comes to an end on an acyclic graph: in n steps every source feeds every node. */
module RankAcyclic {
  import opened Sums
  import opened GraphSpec
  import opened RankConvergence

  // ---------- layers of an acyclic graph ----------

  /** Nodes from which every walk along positive weights has fewer than k edges. */
  ghost function Layer(keys: set<uint32>, edges: Edges, k: nat): set<uint32> {
    if k == 0 then {}
    else set s | s in keys && forall t :: t in keys && Weight(edges, s, t) > 0.0 ==> t in Layer(keys, edges, k - 1)
  }

  lemma {:induction false} LayersGrow(keys: set<uint32>, edges: Edges, k: nat)
    ensures Layer(keys, edges, k) <= Layer(keys, edges, k + 1) <= keys
  {
    if k > 0 {
      LayersGrow(keys, edges, k - 1);
    }
  }

  /** Whatever is left of a walk's graph has a node that leads to nothing left. */
  lemma FindEnd(edges: Edges, left: set<uint32>, path: seq<uint32>) returns (e: uint32)
    requires Acyclic(edges) && Walk(edges, path) && forall i :: 0 <= i < |path| ==> path[i] in left
    ensures e in left && forall t :: t in left ==> Weight(edges, e, t) <= 0.0
    decreases left - Nodes(path)
  {
    e := path[|path| - 1];
    if t :| t in left && Weight(edges, e, t) > 0.0 {
      if i :| 0 <= i < |path| && path[i] == t {
        ClosedWalk(edges, path, i);
      } else {
        assert t !in Nodes(path) && t in Nodes(path + [t]);
        assert Nodes(path) <= Nodes(path + [t]) by {
          assert forall i :: 0 <= i < |path| ==> (path + [t])[i] == path[i];
        }
        LongerWalk(edges, path, t);
        e := FindEnd(edges, left, path + [t]);
      }
    }
  }

  function Nodes(path: seq<uint32>): set<uint32> {
    set i | 0 <= i < |path| :: path[i]
  }

  lemma LongerWalk(edges: Edges, path: seq<uint32>, t: uint32)
    requires Walk(edges, path) && Edge(edges, path[|path| - 1], t)
    ensures Walk(edges, path + [t])
  {
    var longer := path + [t];
    forall i | 0 <= i < |longer| - 1 ensures Edge(edges, longer[i], longer[i + 1]) {
      if i < |path| - 1 {
        assert Edge(edges, path[i], path[i + 1]);
      }
    }
  }

  lemma ClosedWalk(edges: Edges, path: seq<uint32>, i: nat)
    requires Acyclic(edges) && Walk(edges, path) && i < |path|
    ensures !Edge(edges, path[|path| - 1], path[i])
  {
    var p := path[i..];
    forall k | 0 <= k < |p| - 1 ensures Edge(edges, p[k], p[k + 1]) {
      assert Edge(edges, path[i + k], path[i + k + 1]);
    }
    var closed := p + [path[i]];
    assert closed[0] == closed[|closed| - 1] && |closed| > 1;
    if Edge(edges, path[|path| - 1], path[i]) {
      LongerWalk(edges, p, path[i]);
    }
  }

  /** A layer that is not everything is followed by a larger one. */
  lemma LayerAdds(keys: set<uint32>, edges: Edges, k: nat)
    requires Acyclic(edges) && Layer(keys, edges, k) != keys
    ensures Layer(keys, edges, k) < Layer(keys, edges, k + 1)
  {
    LayersGrow(keys, edges, k);
    var left := keys - Layer(keys, edges, k);
    assert Layer(keys, edges, k) + left == keys;
    var s :| s in left;
    assert Walk(edges, [s]);
    var e := FindEnd(edges, left, [s]);
    assert e in Layer(keys, edges, k + 1);
  }

  lemma {:induction false} LayersFill(keys: set<uint32>, edges: Edges, k: nat)
    requires Acyclic(edges) && k <= |keys|
    ensures |Layer(keys, edges, k)| >= k
  {
    hide Layer;
    if k > 0 {
      LayersFill(keys, edges, k - 1);
      LayersGrow(keys, edges, k - 1);
      if Layer(keys, edges, k - 1) == keys {
        assert Layer(keys, edges, k) == keys;
      } else {
        LayerAdds(keys, edges, k - 1);
        Larger(Layer(keys, edges, k - 1), Layer(keys, edges, k));
      }
    }
  }

  lemma Larger(a: set<uint32>, b: set<uint32>)
    requires a < b
    ensures |a| < |b|
  {
    assert b == a + (b - a);
    var x :| x in b - a;
    assert |b - a| > 0;
  }

  /** So with as many layers as nodes, everything is in. */
  lemma LastLayer(keys: set<uint32>, edges: Edges)
    requires Acyclic(edges)
    ensures Layer(keys, edges, |keys|) == keys
  {
    LayersFill(keys, edges, |keys|);
    LayersGrow(keys, edges, |keys|);
    if Layer(keys, edges, |keys|) != keys {
      Larger(Layer(keys, edges, |keys|), keys);
    }
  }

  // ---------- what one step does to a layer ----------

  ghost predicate NonNegativeRanking(nodes: map<uint32, Node>) {
    forall i :: RankingOf(nodes, i) >= 0.0
  }

  ghost predicate Regular(nodes: map<uint32, Node>, edges: Edges) {
    nodes != map[] && Within(edges, nodes) && OutboundRight(edges, nodes) && NonNegativeWeights(edges)
  }

  ghost function Mass(some: set<uint32>, nodes: map<uint32, Node>): real {
    Sum(some, i => RankingOf(nodes, i))
  }

  /** With damping 1: what s passes on to t along an edge or, leaking, like to everyone. */
  ghost function Sent(nodes: map<uint32, Node>, edges: Edges, s: uint32, t: uint32): real
    requires |nodes| > 0
  {
    Flow(1.0, nodes, edges, s, t) + Leaking(nodes, s) / |nodes| as real
  }

  /** One part of as many as there are nodes. */
  ghost function Nth(nodes: map<uint32, Node>): (c: real)
    requires |nodes| > 0
    ensures 0.0 < c <= 1.0
  {
    InverseInRange(|nodes|);
    1.0 / |nodes| as real
  }

  lemma NthIs(nodes: map<uint32, Node>, other: map<uint32, Node>)
    requires |nodes| == |other| > 0
    ensures Nth(nodes) == Nth(other)
  {
  }

  lemma SentIs(nodes: map<uint32, Node>, edges: Edges, s: uint32, t: uint32)
    requires |nodes| > 0
    ensures Sent(nodes, edges, s, t) == Flow(1.0, nodes, edges, s, t) + Nth(nodes) * Leaking(nodes, s)
  {
    hide Flow, Leaking;
    Inverse(Leaking(nodes, s), |nodes| as real);
  }

  /** What everybody gets of a leaking node. */
  ghost function Spread(nodes: map<uint32, Node>, s: uint32): real
    requires |nodes| > 0
  {
    Nth(nodes) * Leaking(nodes, s)
  }

  lemma SpreadIs(nodes: map<uint32, Node>, edges: Edges, s: uint32, t: uint32)
    requires |nodes| > 0
    ensures Sent(nodes, edges, s, t) == Flow(1.0, nodes, edges, s, t) + Spread(nodes, s)
  {
    SentIs(nodes, edges, s, t);
    hide Sent, Flow, Leaking, Nth;
  }

  lemma SpreadTotal(nodes: map<uint32, Node>, spread: uint32 -> real)
    requires |nodes| > 0 && forall s :: spread(s) == Spread(nodes, s)
    ensures Sum(nodes.Keys, spread) == Everyone(1.0, Leaked(nodes), |nodes| as real)
  {
    EveryoneWhole(nodes, Leaked(nodes));
    hide Sum, Leaking, Nth, Everyone, Leaked;
    var leak := (s: uint32) => Leaking(nodes, s);
    SumScale(nodes.Keys, Nth(nodes), leak, spread);
    LeakedAs(nodes, leak);
  }

  /** The next ranking is all that is sent. */
  lemma NextIsSent(nodes: map<uint32, Node>, edges: Edges, t: uint32)
    requires |nodes| > 0 && nodes != map[]
    ensures NextRanking(1.0, nodes, edges, t) == Sum(nodes.Keys, s => Sent(nodes, edges, s, t))
  {
    hide *;
    var keys := nodes.Keys;
    var flow, spread := (s: uint32) => Flow(1.0, nodes, edges, s, t), (s: uint32) => Spread(nodes, s);
    var sent := (s: uint32) => Sent(nodes, edges, s, t);
    NextParts(1.0, nodes, edges, t);
    forall s | s in keys ensures sent(s) == flow(s) + spread(s) {
      SpreadIs(nodes, edges, s, t);
    }
    SumPlus(keys, flow, spread, sent);
    PassedAs(nodes, edges, t, flow);
    SpreadTotal(nodes, spread);
    SumSame(keys, sent, s => Sent(nodes, edges, s, t));
  }

  lemma Inverse(x: real, n: real)
    requires n > 0.0
    ensures x / n == 1.0 / n * x
  {
  }

  lemma EveryoneWhole(nodes: map<uint32, Node>, leaked: real)
    requires |nodes| > 0
    ensures Everyone(1.0, leaked, |nodes| as real) == Nth(nodes) * leaked
  {
    Inverse(leaked, |nodes| as real);
  }

  lemma PassedAs(nodes: map<uint32, Node>, edges: Edges, t: uint32, flow: uint32 -> real)
    requires forall s :: flow(s) == Flow(1.0, nodes, edges, s, t)
    ensures Passed(1.0, nodes, edges, nodes.Keys, t) == Sum(nodes.Keys, flow)
  {
    hide Flow, Sum;
    SumSame(nodes.Keys, flow, s => Flow(1.0, nodes, edges, s, t));
  }

  lemma LeakedAs(nodes: map<uint32, Node>, leak: uint32 -> real)
    requires forall s :: leak(s) == Leaking(nodes, s)
    ensures Leaked(nodes) == Sum(nodes.Keys, leak)
  {
    hide Leaking, Sum;
    SumSame(nodes.Keys, leak, s => Leaking(nodes, s));
  }

  /** What one source sends to the nodes of `to`. */
  ghost function SentTo(nodes: map<uint32, Node>, edges: Edges, s: uint32, to: set<uint32>): real
    requires |nodes| > 0
  {
    Sum(to, t => Sent(nodes, edges, s, t))
  }

  /** What every source in `from` sends to `to` at least arrives there at least. */
  lemma SentArrives(nodes: map<uint32, Node>, edges: Edges, from: set<uint32>, to: set<uint32>, due: uint32 -> real)
    requires nodes != map[] && |nodes| > 0 && from <= nodes.Keys && to <= nodes.Keys
    requires NonNegativeRanking(nodes) && NonNegativeWeights(edges)
    requires forall s :: s in from ==> SentTo(nodes, edges, s, to) >= due(s)
    ensures Mass(to, Advanced(1.0, nodes, edges)) >= Sum(from, due)
  {
    hide *;
    var keys := nodes.Keys;
    var column := (t: uint32) => NextRanking(1.0, nodes, edges, t);
    var row := (s: uint32) => SentTo(nodes, edges, s, to);
    AdvancedSame(1.0, nodes, edges);
    MassAs(to, Advanced(1.0, nodes, edges), column);
    RowsAndColumns(nodes, edges, to, row, column);
    forall s | s in keys ensures row(s) >= 0.0 {
      SentIsNoDebt(nodes, edges, s, to);
    }
    SumDisjoint(from, keys - from, row);
    assert from + (keys - from) == keys;
    NonNegativeSum(keys - from, row);
    SumBounded(from, due, row);
  }

  /** If every source in `from` sends at least a part c of its ranking to `to`, that much arrives. */
  lemma MassArrives(nodes: map<uint32, Node>, edges: Edges, from: set<uint32>, to: set<uint32>, c: real)
    requires nodes != map[] && |nodes| > 0 && from <= nodes.Keys && to <= nodes.Keys
    requires NonNegativeRanking(nodes) && NonNegativeWeights(edges)
    requires forall s :: s in from ==> SentTo(nodes, edges, s, to) >= c * RankingOf(nodes, s)
    ensures Mass(to, Advanced(1.0, nodes, edges)) >= c * Mass(from, nodes)
  {
    hide *;
    var ranking := (s: uint32) => RankingOf(nodes, s);
    var due := (s: uint32) => c * ranking(s);
    SentArrives(nodes, edges, from, to, due);
    MassAs(from, nodes, ranking);
    SumScale(from, c, ranking, due);
  }

  lemma MassAs(some: set<uint32>, nodes: map<uint32, Node>, ranking: uint32 -> real)
    requires forall i :: i in some ==> ranking(i) == RankingOf(nodes, i)
    ensures Mass(some, nodes) == Sum(some, ranking)
  {
    hide Sum, RankingOf;
    SumSame(some, ranking, i => RankingOf(nodes, i));
  }

  lemma RowsAndColumns(nodes: map<uint32, Node>, edges: Edges, to: set<uint32>, row: uint32 -> real,
                       column: uint32 -> real)
    requires nodes != map[] && |nodes| > 0
    requires forall s :: row(s) == SentTo(nodes, edges, s, to)
    requires forall t :: column(t) == NextRanking(1.0, nodes, edges, t)
    ensures Sum(nodes.Keys, row) == Sum(to, column)
  {
    hide Sum, Sent, NextRanking;
    var keys := nodes.Keys;
    var sent := (s: uint32) => (t: uint32) => Sent(nodes, edges, s, t);
    forall s | s in keys ensures row(s) == Sum(to, sent(s)) {
      SumSame(to, t => Sent(nodes, edges, s, t), sent(s));
    }
    forall t | t in to ensures column(t) == ColumnSum(keys, sent, t) {
      NextIsSent(nodes, edges, t);
      ColumnSumIs(keys, sent, t, s => Sent(nodes, edges, s, t));
    }
    SumSwap(keys, to, sent, row, column);
  }

  lemma SentIsNoDebt(nodes: map<uint32, Node>, edges: Edges, s: uint32, to: set<uint32>)
    requires |nodes| > 0 && NonNegativeRanking(nodes) && NonNegativeWeights(edges)
    ensures SentTo(nodes, edges, s, to) >= 0.0
  {
    hide Sum;
    forall t ensures Sent(nodes, edges, s, t) >= 0.0 {
      SentParts(nodes, edges, s, t);
    }
    hide Sent;
    NonNegativeSum(to, t => Sent(nodes, edges, s, t));
  }

  lemma SentParts(nodes: map<uint32, Node>, edges: Edges, s: uint32, t: uint32)
    requires |nodes| > 0 && NonNegativeRanking(nodes) && NonNegativeWeights(edges)
    ensures Flow(1.0, nodes, edges, s, t) >= 0.0 && Leaking(nodes, s) / |nodes| as real >= 0.0
    ensures Sent(nodes, edges, s, t) >= 0.0
  {
    assert RankingOf(nodes, s) >= 0.0 && Weight(edges, s, t) >= 0.0;
    SameNodesReflexive(nodes);
    SharesAgree(nodes, nodes, edges, s, t);
    NoProductNegative(RankingOf(nodes, s), Share(nodes, edges, s, t));
    NoQuotientNegative(Leaking(nodes, s), |nodes| as real);
  }

  lemma NoProductNegative(a: real, b: real)
    requires a >= 0.0 && b >= 0.0
    ensures a * b >= 0.0
  {
  }

  // ---------- from layer to layer ----------

  /** A node without outbound weight sends an n-th of its ranking to every node. */
  lemma IdleSends(nodes: map<uint32, Node>, edges: Edges, s: uint32, t: uint32, to: set<uint32>)
    requires |nodes| > 0 && s in nodes && nodes[s].outbound == 0.0 && t in to
    requires NonNegativeRanking(nodes) && NonNegativeWeights(edges)
    ensures SentTo(nodes, edges, s, to) >= Nth(nodes) * RankingOf(nodes, s)
  {
    var sent := (x: uint32) => Sent(nodes, edges, s, x);
    forall x ensures sent(x) >= 0.0 {
      SentParts(nodes, edges, s, x);
    }
    IdleSent(nodes, edges, s, t);
    hide Sent, Sum, RankingOf;
    SumTake(to, t, sent);
    NonNegativeSum(to - {t}, sent);
    SumSame(to, sent, x => Sent(nodes, edges, s, x));
  }

  lemma IdleSent(nodes: map<uint32, Node>, edges: Edges, s: uint32, t: uint32)
    requires |nodes| > 0 && s in nodes && nodes[s].outbound == 0.0
    ensures Sent(nodes, edges, s, t) == Nth(nodes) * RankingOf(nodes, s)
  {
    NoFlow(1.0, nodes, edges, s, t);
    SentIs(nodes, edges, s, t);
    hide Flow, Sent, Nth;
  }

  /** A node with outbound weight sends all its ranking to where its positive weights lead. */
  lemma BusySends(nodes: map<uint32, Node>, edges: Edges, s: uint32, to: set<uint32>)
    requires Regular(nodes, edges) && |nodes| > 0 && s in nodes && nodes[s].outbound > 0.0
    requires to <= nodes.Keys && forall t :: t in nodes && Weight(edges, s, t) > 0.0 ==> t in to
    requires NonNegativeRanking(nodes)
    ensures SentTo(nodes, edges, s, to) >= RankingOf(nodes, s)
  {
    hide *;
    RegularMeans(nodes, edges);
    var keys, flow := nodes.Keys, (t: uint32) => Flow(1.0, nodes, edges, s, t);
    var sent := (t: uint32) => Sent(nodes, edges, s, t);
    SharesAddUp(1.0, nodes, edges, s);
    RankingIs(nodes, s);
    FlowAs(nodes, edges, s, keys, flow);
    SumDisjoint(to, keys - to, flow);
    assert to + (keys - to) == keys;
    forall t | t in keys - to ensures flow(t) == 0.0 {
      NoWeightNoFlow(nodes, edges, s, t);
    }
    SumZero(keys - to, flow);
    forall t | t in to ensures flow(t) <= sent(t) {
      FlowIsSent(nodes, edges, s, t);
    }
    SumBounded(to, flow, sent);
    SentToAs(nodes, edges, s, to, sent);
    OneTimes(RankingOf(nodes, s));
  }

  lemma SentToAs(nodes: map<uint32, Node>, edges: Edges, s: uint32, to: set<uint32>, sent: uint32 -> real)
    requires |nodes| > 0 && forall t :: sent(t) == Sent(nodes, edges, s, t)
    ensures SentTo(nodes, edges, s, to) == Sum(to, sent)
  {
    hide Sum, Sent;
    SumSame(to, sent, t => Sent(nodes, edges, s, t));
  }

  lemma FlowAs(nodes: map<uint32, Node>, edges: Edges, s: uint32, to: set<uint32>, flow: uint32 -> real)
    requires forall t :: flow(t) == Flow(1.0, nodes, edges, s, t)
    ensures Sum(to, t => Flow(1.0, nodes, edges, s, t)) == Sum(to, flow)
  {
    hide Sum, Flow;
    SumSame(to, flow, t => Flow(1.0, nodes, edges, s, t));
  }

  lemma OneTimes(x: real)
    ensures 1.0 * x == x
  {
  }

  lemma RegularMeans(nodes: map<uint32, Node>, edges: Edges)
    ensures Regular(nodes, edges) <==>
              nodes != map[] && Within(edges, nodes) && OutboundRight(edges, nodes) && NonNegativeWeights(edges)
  {
  }

  lemma NoWeightNoFlow(nodes: map<uint32, Node>, edges: Edges, s: uint32, t: uint32)
    requires NonNegativeWeights(edges) && !(Weight(edges, s, t) > 0.0)
    ensures Flow(1.0, nodes, edges, s, t) == 0.0
  {
    assert Weight(edges, s, t) == 0.0;
    assert Share(nodes, edges, s, t) == 0.0;
  }

  lemma FlowIsSent(nodes: map<uint32, Node>, edges: Edges, s: uint32, t: uint32)
    requires |nodes| > 0 && NonNegativeRanking(nodes) && NonNegativeWeights(edges)
    ensures Flow(1.0, nodes, edges, s, t) <= Sent(nodes, edges, s, t)
  {
    SentParts(nodes, edges, s, t);
  }

  lemma PartOf(x: real, c: real)
    requires x >= 0.0 && 0.0 <= c <= 1.0
    ensures c * x <= x
  {
    AtMost(x, c);
  }

  lemma NoneNegative(nodes: map<uint32, Node>, edges: Edges, s: uint32)
    requires Regular(nodes, edges) && s in nodes
    ensures nodes[s].outbound >= 0.0
  {
    assert nodes[s].outbound == OutSum(edges, s);
    if s in edges {
      NonNegativeSum(edges[s].Keys, t => Weight(edges, s, t));
    }
  }

  /** The first layer is the nodes that have no outbound weight. */
  lemma FirstLayerIdles(nodes: map<uint32, Node>, edges: Edges, s: uint32)
    requires Regular(nodes, edges) && s in Layer(nodes.Keys, edges, 1)
    ensures s in nodes && nodes[s].outbound == 0.0
  {
    assert nodes[s].outbound == OutSum(edges, s);
    if s in edges {
      forall t | t in edges[s].Keys ensures Weight(edges, s, t) == 0.0 {
        assert Edge(edges, s, t) && t in nodes.Keys;
        assert Layer(nodes.Keys, edges, 0) == {};
        assert Weight(edges, s, t) >= 0.0;
      }
      SumZero(edges[s].Keys, t => Weight(edges, s, t));
    }
  }

  /** Every node of a layer sends at least an n-th of its ranking to the layer below. */
  lemma LayerSends(nodes: map<uint32, Node>, edges: Edges, k: nat, s: uint32)
    requires Regular(nodes, edges) && Acyclic(edges) && NonNegativeRanking(nodes) && 1 <= k < |nodes|
    requires s in Layer(nodes.Keys, edges, k + 1)
    ensures SentTo(nodes, edges, s, Layer(nodes.Keys, edges, k)) >= Nth(nodes) * RankingOf(nodes, s)
  {
    hide *;
    var keys, to := nodes.Keys, Layer(nodes.Keys, edges, k);
    assert |keys| == |nodes|;
    RegularMeans(nodes, edges);
    LayersGrow(keys, edges, k);
    LayersFill(keys, edges, k);
    LayerLeads(keys, edges, k, s);
    NoneNegative(nodes, edges, s);
    if nodes[s].outbound == 0.0 {
      var t := SomeOf(to);
      IdleSends(nodes, edges, s, t, to);
    } else {
      BusySends(nodes, edges, s, to);
      NoDebt(nodes, s);
      PartOf(RankingOf(nodes, s), Nth(nodes));
    }
  }

  lemma LayerLeads(keys: set<uint32>, edges: Edges, k: nat, s: uint32)
    requires s in Layer(keys, edges, k + 1)
    ensures s in keys && forall t :: t in keys && Weight(edges, s, t) > 0.0 ==> t in Layer(keys, edges, k)
  {
  }

  lemma SomeOf(some: set<uint32>) returns (t: uint32)
    requires |some| > 0
    ensures t in some
  {
    t :| t in some;
  }

  lemma NoDebt(nodes: map<uint32, Node>, s: uint32)
    requires NonNegativeRanking(nodes)
    ensures RankingOf(nodes, s) >= 0.0
  {
  }

  lemma AdvancedStays(nodes: map<uint32, Node>, edges: Edges)
    requires Regular(nodes, edges) && NonNegativeRanking(nodes) && |nodes| > 0
    ensures NonNegativeRanking(Advanced(1.0, nodes, edges))
  {
    hide *;
    AdvancedSame(1.0, nodes, edges);
    RegularMeans(nodes, edges);
    forall i | i in nodes ensures RankingOf(Advanced(1.0, nodes, edges), i) >= 0.0 {
      NextIsSent(nodes, edges, i);
      AllSent(nodes, edges, i);
    }
    NonNegativeFrom(nodes, Advanced(1.0, nodes, edges));
  }

  lemma AllSent(nodes: map<uint32, Node>, edges: Edges, t: uint32)
    requires |nodes| > 0 && NonNegativeRanking(nodes) && NonNegativeWeights(edges)
    ensures Sum(nodes.Keys, s => Sent(nodes, edges, s, t)) >= 0.0
  {
    forall s ensures Sent(nodes, edges, s, t) >= 0.0 {
      SentParts(nodes, edges, s, t);
    }
    hide Sent, Sum;
    NonNegativeSum(nodes.Keys, s => Sent(nodes, edges, s, t));
  }

  lemma NonNegativeFrom(nodes: map<uint32, Node>, next: map<uint32, Node>)
    requires next.Keys == nodes.Keys && forall i :: i in nodes ==> RankingOf(next, i) >= 0.0
    ensures NonNegativeRanking(next)
  {
  }

  // ---------- n steps ----------

  /** What k iterations keep. */
  lemma {:induction false} IteratedStays(nodes: map<uint32, Node>, edges: Edges, k: nat)
    requires Regular(nodes, edges) && NonNegativeRanking(nodes)
    ensures var now := Iterated(1.0, nodes, edges, k);
      Regular(now, edges) && NonNegativeRanking(now) && now.Keys == nodes.Keys && |now| == |nodes| > 0
  {
    hide *;
    NoNodesLeft(nodes);
    RegularMeans(nodes, edges);
    IteratedSame(1.0, nodes, edges, k);
    SameSizes(nodes, Iterated(1.0, nodes, edges, k));
    RegularMeans(Iterated(1.0, nodes, edges, k), edges);
    if k > 0 {
      IteratedStays(nodes, edges, k - 1);
      IteratedStep(1.0, nodes, edges, k - 1);
      AdvancedStays(Iterated(1.0, nodes, edges, k - 1), edges);
    } else {
      IteratedStep(1.0, nodes, edges, 0);
    }
  }

  /** After k steps at least the k-th power of an n-th of everything is in the last but k layers. */
  lemma {:induction false} MassSinks(nodes: map<uint32, Node>, edges: Edges, k: nat)
    requires Regular(nodes, edges) && Acyclic(edges) && NonNegativeRanking(nodes) && k < |nodes|
    ensures Mass(Layer(nodes.Keys, edges, |nodes| - k), Iterated(1.0, nodes, edges, k))
            >= Power(Nth(nodes), k) * TotalRanking(nodes)
  {
    hide *;
    var keys, n, c := nodes.Keys, |nodes|, Nth(nodes);
    assert |keys| == n;
    if k == 0 {
      IteratedStep(1.0, nodes, edges, 0);
      LastLayer(keys, edges);
      WholeMass(nodes, c);
    } else {
      MassSinks(nodes, edges, k - 1);
      IteratedStays(nodes, edges, k - 1);
      IteratedStep(1.0, nodes, edges, k - 1);
      var before := Iterated(1.0, nodes, edges, k - 1);
      NthIs(nodes, before);
      LayerArrives(before, edges, n - k);
      PowerGoesOn(c, k, Mass(Layer(keys, edges, n - k + 1), before), TotalRanking(nodes));
    }
  }

  lemma WholeMass(nodes: map<uint32, Node>, c: real)
    ensures Mass(nodes.Keys, nodes) == Power(c, 0) * TotalRanking(nodes)
  {
  }

  lemma PowerGoesOn(c: real, k: nat, mass: real, total: real)
    requires c >= 0.0 && k > 0 && mass >= Power(c, k - 1) * total
    ensures c * mass >= Power(c, k) * total
  {
    var p := Power(c, k - 1);
    hide Power;
    Scaled(c, p * total, mass);
    Associates(c, p, total);
    PowerStep(c, k);
  }

  lemma PowerStep(c: real, k: nat)
    requires k > 0
    ensures Power(c, k) == c * Power(c, k - 1)
  {
  }

  lemma LayerArrives(nodes: map<uint32, Node>, edges: Edges, k: nat)
    requires Regular(nodes, edges) && Acyclic(edges) && NonNegativeRanking(nodes) && 1 <= k < |nodes|
    ensures Mass(Layer(nodes.Keys, edges, k), Advanced(1.0, nodes, edges))
            >= Nth(nodes) * Mass(Layer(nodes.Keys, edges, k + 1), nodes)
  {
    hide *;
    RegularMeans(nodes, edges);
    LayersGrow(nodes.Keys, edges, k);
    LayersGrow(nodes.Keys, edges, k + 1);
    forall s | s in Layer(nodes.Keys, edges, k + 1)
      ensures SentTo(nodes, edges, s, Layer(nodes.Keys, edges, k)) >= Nth(nodes) * RankingOf(nodes, s)
    {
      LayerSends(nodes, edges, k, s);
    }
    MassArrives(nodes, edges, Layer(nodes.Keys, edges, k + 1), Layer(nodes.Keys, edges, k), Nth(nodes));
  }

  /** Each node ends up with at least a fixed part of everything. */
  lemma EveryoneGets(nodes: map<uint32, Node>, edges: Edges, j: uint32)
    requires Regular(nodes, edges) && Acyclic(edges) && NonNegativeRanking(nodes) && j in nodes
    ensures |nodes| > 0
    ensures RankingOf(Iterated(1.0, nodes, edges, |nodes|), j)
            >= Power(Nth(nodes), |nodes|) * TotalRanking(nodes)
  {
    hide *;
    var keys, n, c := nodes.Keys, |nodes|, Nth(nodes);
    NoNodesLeft(nodes);
    MassSinks(nodes, edges, n - 1);
    IteratedStays(nodes, edges, n - 1);
    IteratedStep(1.0, nodes, edges, n - 1);
    var before := Iterated(1.0, nodes, edges, n - 1);
    NthIs(nodes, before);
    IdlesArrive(before, edges, j);
    PowerGoesOn(c, n, Mass(Layer(keys, edges, 1), before), TotalRanking(nodes));
  }

  lemma IdlesArrive(nodes: map<uint32, Node>, edges: Edges, j: uint32)
    requires Regular(nodes, edges) && NonNegativeRanking(nodes) && j in nodes && |nodes| > 0
    ensures RankingOf(Advanced(1.0, nodes, edges), j)
            >= Nth(nodes) * Mass(Layer(nodes.Keys, edges, 1), nodes)
  {
    hide *;
    RegularMeans(nodes, edges);
    LayersGrow(nodes.Keys, edges, 1);
    forall s | s in Layer(nodes.Keys, edges, 1)
      ensures SentTo(nodes, edges, s, {j}) >= Nth(nodes) * RankingOf(nodes, s)
    {
      FirstLayerIdles(nodes, edges, s);
      IdleSends(nodes, edges, s, j, {j});
    }
    MassArrives(nodes, edges, Layer(nodes.Keys, edges, 1), {j}, Nth(nodes));
    MassOfOne(Advanced(1.0, nodes, edges), j);
  }

  lemma MassOfOne(nodes: map<uint32, Node>, j: uint32)
    ensures Mass({j}, nodes) == RankingOf(nodes, j)
  {
    SumPoint({j}, j, i => RankingOf(nodes, i));
  }

  // ---------- two rankings ----------

  function Surplus(x: map<uint32, Node>, y: map<uint32, Node>, i: uint32): real {
    var d := RankingOf(y, i) - RankingOf(x, i);
    if d > 0.0 then d else 0.0
  }

  /** The nodes with the amounts by which their rankings in y are above those in x. */
  ghost function Above(x: map<uint32, Node>, y: map<uint32, Node>): map<uint32, Node> {
    map i | i in x :: x[i].(ranking := Surplus(x, y, i))
  }

  /** The rankings of y and x differ as those of p and q. */
  ghost predicate Balanced(x: map<uint32, Node>, y: map<uint32, Node>, p: map<uint32, Node>, q: map<uint32, Node>) {
    && SameNodes(x, y) && SameNodes(x, p) && SameNodes(x, q)
    && forall i :: RankingOf(y, i) + RankingOf(q, i) == RankingOf(x, i) + RankingOf(p, i)
  }

  lemma AboveBalances(x: map<uint32, Node>, y: map<uint32, Node>)
    requires SameNodes(x, y)
    ensures Balanced(x, y, Above(x, y), Above(y, x))
    ensures NonNegativeRanking(Above(x, y)) && NonNegativeRanking(Above(y, x))
    ensures forall i :: RankingOf(Above(x, y), i) + RankingOf(Above(y, x), i) == Abs(RankingOf(y, i) - RankingOf(x, i))
  {
  }

  lemma SumsBalance(some: set<uint32>, f: uint32 -> real, g: uint32 -> real, h: uint32 -> real, k: uint32 -> real)
    requires forall s :: s in some ==> f(s) + g(s) == h(s) + k(s)
    ensures Sum(some, f) + Sum(some, g) == Sum(some, h) + Sum(some, k)
  {
    var left, right := (s: uint32) => f(s) + g(s), (s: uint32) => h(s) + k(s);
    SumPlus(some, f, g, left);
    SumPlus(some, h, k, right);
    SumSame(some, left, right);
  }

  lemma FlowBalances(x: map<uint32, Node>, y: map<uint32, Node>, p: map<uint32, Node>, q: map<uint32, Node>,
                     edges: Edges, s: uint32, t: uint32)
    requires Balanced(x, y, p, q) && NonNegativeWeights(edges) && |x| > 0
    ensures |y| == |p| == |q| == |x|
    ensures Sent(y, edges, s, t) + Sent(q, edges, s, t) == Sent(x, edges, s, t) + Sent(p, edges, s, t)
  {
    SameSizes(x, y);
    SameSizes(x, p);
    SameSizes(x, q);
    var n, share := |x| as real, Share(x, edges, s, t);
    SharesAgree(x, y, edges, s, t);
    SharesAgree(x, p, edges, s, t);
    SharesAgree(x, q, edges, s, t);
    LeaksBalance(x, y, p, q, s);
    assert RankingOf(y, s) + RankingOf(q, s) == RankingOf(x, s) + RankingOf(p, s);
    hide RankingOf, Share, Leaking, SameNodes, NonNegativeWeights;
    TimesBalance(RankingOf(y, s), RankingOf(q, s), RankingOf(x, s), RankingOf(p, s), share);
    OverBalance(Leaking(y, s), Leaking(q, s), Leaking(x, s), Leaking(p, s), n);
  }

  lemma LeaksBalance(x: map<uint32, Node>, y: map<uint32, Node>, p: map<uint32, Node>, q: map<uint32, Node>, s: uint32)
    requires Balanced(x, y, p, q)
    ensures Leaking(y, s) + Leaking(q, s) == Leaking(x, s) + Leaking(p, s)
  {
    assert RankingOf(y, s) + RankingOf(q, s) == RankingOf(x, s) + RankingOf(p, s);
  }

  lemma TimesBalance(a: real, b: real, c: real, d: real, share: real)
    requires a + b == c + d
    ensures 1.0 * a * share + 1.0 * b * share == 1.0 * c * share + 1.0 * d * share
  {
    assert (a + b) * share == (c + d) * share;
  }

  lemma OverBalance(a: real, b: real, c: real, d: real, n: real)
    requires a + b == c + d && n > 0.0
    ensures a / n + b / n == c / n + d / n
  {
    assert (a + b) / n == (c + d) / n;
  }

  /** An iteration of both keeps the difference. */
  lemma BalanceGoesOn(x: map<uint32, Node>, y: map<uint32, Node>, p: map<uint32, Node>, q: map<uint32, Node>,
                      edges: Edges)
    requires Balanced(x, y, p, q) && NonNegativeWeights(edges) && |x| > 0 && x != map[]
    ensures Balanced(Advanced(1.0, x, edges), Advanced(1.0, y, edges), Advanced(1.0, p, edges), Advanced(1.0, q, edges))
  {
    hide *;
    BalancedParts(x, y, p, q);
    var x', y' := Advanced(1.0, x, edges), Advanced(1.0, y, edges);
    var p', q' := Advanced(1.0, p, edges), Advanced(1.0, q, edges);
    AdvancedSame(1.0, x, edges);
    AdvancedSame(1.0, y, edges);
    AdvancedSame(1.0, p, edges);
    AdvancedSame(1.0, q, edges);
    SameSizes(x, y);
    SameSizes(x, p);
    SameSizes(x, q);
    forall t | t in x ensures RankingOf(y', t) + RankingOf(q', t) == RankingOf(x', t) + RankingOf(p', t) {
      NextBalances(x, y, p, q, edges, t);
    }
    BalancedFrom(x, y, p, q, x', y', p', q');
  }

  lemma BalancedParts(x: map<uint32, Node>, y: map<uint32, Node>, p: map<uint32, Node>, q: map<uint32, Node>)
    requires Balanced(x, y, p, q)
    ensures SameNodes(x, y) && SameNodes(x, p) && SameNodes(x, q)
    ensures forall i :: RankingOf(y, i) + RankingOf(q, i) == RankingOf(x, i) + RankingOf(p, i)
  {
  }

  lemma BalancedFrom(x: map<uint32, Node>, y: map<uint32, Node>, p: map<uint32, Node>, q: map<uint32, Node>,
                     x': map<uint32, Node>, y': map<uint32, Node>, p': map<uint32, Node>, q': map<uint32, Node>)
    requires SameNodes(x, y) && SameNodes(x, p) && SameNodes(x, q)
    requires SameNodes(x, x') && SameNodes(y, y') && SameNodes(p, p') && SameNodes(q, q')
    requires forall t :: t in x ==> RankingOf(y', t) + RankingOf(q', t) == RankingOf(x', t) + RankingOf(p', t)
    ensures Balanced(x', y', p', q')
  {
  }

  lemma NextBalances(x: map<uint32, Node>, y: map<uint32, Node>, p: map<uint32, Node>, q: map<uint32, Node>,
                     edges: Edges, t: uint32)
    requires Balanced(x, y, p, q) && NonNegativeWeights(edges) && |x| > 0 && x != map[]
    ensures NextRanking(1.0, y, edges, t) + NextRanking(1.0, q, edges, t)
            == NextRanking(1.0, x, edges, t) + NextRanking(1.0, p, edges, t)
  {
    hide *;
    BalancedParts(x, y, p, q);
    SameSizes(x, y);
    SameSizes(x, p);
    SameSizes(x, q);
    NextSentAs(x, edges, t);
    NextSentAs(y, edges, t);
    NextSentAs(p, edges, t);
    NextSentAs(q, edges, t);
    var keys := x.Keys;
    forall s | s in keys
      ensures Sent(y, edges, s, t) + Sent(q, edges, s, t) == Sent(x, edges, s, t) + Sent(p, edges, s, t)
    {
      FlowBalances(x, y, p, q, edges, s, t);
    }
    SumsBalance(keys, SentFrom(y, edges, t), SentFrom(q, edges, t), SentFrom(x, edges, t), SentFrom(p, edges, t));
  }

  /** What the sources send to t. */
  ghost function SentFrom(nodes: map<uint32, Node>, edges: Edges, t: uint32): (sent: uint32 -> real)
    requires |nodes| > 0
    ensures forall s :: sent(s) == Sent(nodes, edges, s, t)
  {
    (s: uint32) => Sent(nodes, edges, s, t)
  }

  lemma NextSentAs(nodes: map<uint32, Node>, edges: Edges, t: uint32)
    requires |nodes| > 0 && nodes != map[]
    ensures NextRanking(1.0, nodes, edges, t) == Sum(nodes.Keys, SentFrom(nodes, edges, t))
  {
    hide *;
    NextIsSent(nodes, edges, t);
    SumSame(nodes.Keys, SentFrom(nodes, edges, t), s => Sent(nodes, edges, s, t));
  }

  lemma {:induction false} BalanceLasts(x: map<uint32, Node>, y: map<uint32, Node>, p: map<uint32, Node>,
                                        q: map<uint32, Node>, edges: Edges, k: nat)
    requires Balanced(x, y, p, q) && Regular(x, edges)
    ensures Balanced(Iterated(1.0, x, edges, k), Iterated(1.0, y, edges, k),
                     Iterated(1.0, p, edges, k), Iterated(1.0, q, edges, k))
  {
    hide *;
    if k == 0 {
      IteratedStep(1.0, x, edges, 0);
      IteratedStep(1.0, y, edges, 0);
      IteratedStep(1.0, p, edges, 0);
      IteratedStep(1.0, q, edges, 0);
    } else {
      BalanceLasts(x, y, p, q, edges, k - 1);
      RegularMeans(x, edges);
      NoNodesLeft(x);
      IteratedSame(1.0, x, edges, k - 1);
      SameSizes(x, Iterated(1.0, x, edges, k - 1));
      IteratedStep(1.0, x, edges, k - 1);
      IteratedStep(1.0, y, edges, k - 1);
      IteratedStep(1.0, p, edges, k - 1);
      IteratedStep(1.0, q, edges, k - 1);
      BalanceGoesOn(Iterated(1.0, x, edges, k - 1), Iterated(1.0, y, edges, k - 1),
                    Iterated(1.0, p, edges, k - 1), Iterated(1.0, q, edges, k - 1), edges);
    }
  }

  /** With damping 1 and no negative weights the total stays. */
  lemma {:induction false} TotalStays(nodes: map<uint32, Node>, edges: Edges, k: nat)
    requires Regular(nodes, edges)
    ensures TotalRanking(Iterated(1.0, nodes, edges, k)) == TotalRanking(nodes)
  {
    hide *;
    if k == 0 {
      IteratedStep(1.0, nodes, edges, 0);
    } else {
      TotalStays(nodes, edges, k - 1);
      RegularMeans(nodes, edges);
      IteratedSame(1.0, nodes, edges, k - 1);
      IteratedStep(1.0, nodes, edges, k - 1);
      var before := Iterated(1.0, nodes, edges, k - 1);
      NextTotalIs(1.0, before, edges);
      AdvancedTotal(before, edges);
      OneTimes(TotalRanking(before));
    }
  }

  lemma AdvancedTotal(nodes: map<uint32, Node>, edges: Edges)
    ensures TotalRanking(Advanced(1.0, nodes, edges)) == NextTotal(1.0, nodes, edges)
  {
    hide *;
    var next := (t: uint32) => NextRanking(1.0, nodes, edges, t);
    AdvancedSame(1.0, nodes, edges);
    NextTotalAs(1.0, nodes, edges, next);
    TotalAs(Advanced(1.0, nodes, edges), next);
  }

  lemma TotalAs(nodes: map<uint32, Node>, ranking: uint32 -> real)
    requires forall i :: i in nodes ==> RankingOf(nodes, i) == ranking(i)
    ensures TotalRanking(nodes) == Sum(nodes.Keys, ranking)
  {
    hide Sum, RankingOf;
    SumSame(nodes.Keys, i => RankingOf(nodes, i), ranking);
  }

  // ---------- the contraction over n steps ----------

  lemma MovedIsBoth(x: map<uint32, Node>, y: map<uint32, Node>)
    requires SameNodes(x, y)
    ensures Moved(x, y) == TotalRanking(Above(x, y)) + TotalRanking(Above(y, x))
  {
    AboveBalances(x, y);
    var p, q := Above(x, y), Above(y, x);
    assert p.Keys == q.Keys == y.Keys;
    hide Sum, RankingOf, Above, Abs, SameNodes, NonNegativeRanking;
    var f, g := (i: uint32) => RankingOf(p, i), (i: uint32) => RankingOf(q, i);
    var moved := (i: uint32) => Abs(RankingOf(y, i) - RankingOf(x, i));
    SumPlus(y.Keys, f, g, moved);
    MovedIs(x, y, moved);
    TotalAs(p, f);
    TotalAs(q, g);
  }

  lemma TotalsBalance(x: map<uint32, Node>, y: map<uint32, Node>, p: map<uint32, Node>, q: map<uint32, Node>)
    requires Balanced(x, y, p, q)
    ensures TotalRanking(y) + TotalRanking(q) == TotalRanking(x) + TotalRanking(p)
  {
    hide *;
    BalancedParts(x, y, p, q);
    SameSizes(x, y);
    SameSizes(x, p);
    SameSizes(x, q);
    var f, g := (i: uint32) => RankingOf(y, i), (i: uint32) => RankingOf(q, i);
    var h, k := (i: uint32) => RankingOf(x, i), (i: uint32) => RankingOf(p, i);
    SumsBalance(x.Keys, f, g, h, k);
    TotalAs(y, f);
    TotalAs(q, g);
    TotalAs(x, h);
    TotalAs(p, k);
  }

  /** Where both p and q have e at one place, that much of the difference cancels. */
  lemma PlaceCancels(x: map<uint32, Node>, y: map<uint32, Node>, p: map<uint32, Node>, q: map<uint32, Node>, j: uint32,
                     e: real)
    requires Balanced(x, y, p, q) && NonNegativeRanking(p) && NonNegativeRanking(q) && j in x
    requires RankingOf(p, j) >= e && RankingOf(q, j) >= e
    ensures Moved(x, y) <= TotalRanking(p) + TotalRanking(q) - 2.0 * e
  {
    var bound := (i: uint32) => RankingOf(p, i) + RankingOf(q, i) - if i == j then 2.0 * e else 0.0;
    forall i ensures Abs(RankingOf(y, i) - RankingOf(x, i)) <= bound(i) {
      assert RankingOf(p, i) >= 0.0 && RankingOf(q, i) >= 0.0;
      assert RankingOf(y, i) + RankingOf(q, i) == RankingOf(x, i) + RankingOf(p, i);
    }
    BalancedParts(x, y, p, q);
    SameSizes(x, y);
    SameSizes(x, p);
    SameSizes(x, q);
    hide Sum, RankingOf, Abs, Balanced, SameNodes, NonNegativeRanking, TotalRanking, Moved;
    var moved := (i: uint32) => Abs(RankingOf(y, i) - RankingOf(x, i));
    SumBounded(x.Keys, moved, bound);
    MovedIs(x, y, moved);
    BoundTotal(p, q, j, e, bound);
  }

  lemma BoundTotal(p: map<uint32, Node>, q: map<uint32, Node>, j: uint32, e: real, bound: uint32 -> real)
    requires p.Keys == q.Keys && j in p
    requires forall i :: bound(i) == RankingOf(p, i) + RankingOf(q, i) - if i == j then 2.0 * e else 0.0
    ensures Sum(p.Keys, bound) == TotalRanking(p) + TotalRanking(q) - 2.0 * e
  {
    hide Sum, RankingOf, TotalRanking;
    var f, g := (i: uint32) => RankingOf(p, i), (i: uint32) => RankingOf(q, i);
    var both, point := (i: uint32) => f(i) + g(i), (i: uint32) => if i == j then 2.0 * e else 0.0;
    SumPlus(p.Keys, f, g, both);
    SumPlus(p.Keys, bound, point, both);
    SumPoint(p.Keys, j, point);
    TotalAs(p, f);
    TotalAs(q, g);
  }

  /** The part of everything that every node gets of every source in n steps. */
  function Spreads(n: nat): real
    requires n > 0
  {
    Power(1.0 / n as real, n)
  }

  /** n iterations bring two rankings of the same total closer by a fixed factor below 1. */
  lemma StepsContract(x: map<uint32, Node>, y: map<uint32, Node>, edges: Edges)
    requires SameNodes(x, y) && Regular(x, edges) && Acyclic(edges) && TotalRanking(x) == TotalRanking(y)
    ensures |x| > 0
    ensures Moved(Iterated(1.0, x, edges, |x|), Iterated(1.0, y, edges, |x|)) <= (1.0 - Spreads(|x|)) * Moved(x, y)
  {
    hide *;
    var p, q, n := Above(x, y), Above(y, x), |x|;
    RegularMeans(x, edges);
    NoNodesLeft(x);
    AboveBalances(x, y);
    BalancedParts(x, y, p, q);
    SameSizes(x, p);
    SameSizes(x, q);
    StructureAgrees(x, p, edges);
    StructureAgrees(x, q, edges);
    RegularMeans(p, edges);
    RegularMeans(q, edges);
    TotalsBalance(x, y, p, q);
    MovedIsBoth(x, y);
    var j := SomeNode(x);
    EveryoneGets(p, edges, j);
    EveryoneGets(q, edges, j);
    BalanceLasts(x, y, p, q, edges, n);
    TotalStays(p, edges, n);
    TotalStays(q, edges, n);
    IteratedStays(p, edges, n);
    IteratedStays(q, edges, n);
    IteratedSame(1.0, x, edges, n);
    SameSizes(x, Iterated(1.0, x, edges, n));
    SpreadsMeans(p);
    SpreadsMeans(q);
    var total := TotalRanking(p);
    PlaceCancels(Iterated(1.0, x, edges, n), Iterated(1.0, y, edges, n), Iterated(1.0, p, edges, n),
                 Iterated(1.0, q, edges, n), j, Spreads(n) * total);
    TwiceLess(Spreads(n), total);
  }

  lemma SpreadsMeans(nodes: map<uint32, Node>)
    requires |nodes| > 0
    ensures Spreads(|nodes|) == Power(Nth(nodes), |nodes|)
  {
  }

  lemma TwiceLess(spread: real, total: real)
    ensures total + total - 2.0 * (spread * total) == (1.0 - spread) * (total + total)
  {
  }

  lemma SomeNode(nodes: map<uint32, Node>) returns (j: uint32)
    requires nodes != map[]
    ensures j in nodes
  {
    j :| j in nodes;
  }

  // ---------- convergence ----------

  lemma {:induction false} IteratedTwice(start: map<uint32, Node>, edges: Edges, a: nat, b: nat)
    ensures Iterated(1.0, Iterated(1.0, start, edges, a), edges, b) == Iterated(1.0, start, edges, a + b)
  {
    hide Advanced;
    if b > 0 {
      IteratedTwice(start, edges, a, b - 1);
    }
  }

  /** n more iterations shrink the change. */
  lemma ChangeShrinks(start: map<uint32, Node>, edges: Edges, k: nat)
    requires Regular(start, edges) && Acyclic(edges)
    ensures |start| > 0
    ensures ChangeAt(1.0, start, edges, k + |start| + 1)
            <= (1.0 - Spreads(|start|)) * ChangeAt(1.0, start, edges, k + 1)
  {
    hide *;
    RegularMeans(start, edges);
    NoNodesLeft(start);
    var x, y, n := Iterated(1.0, start, edges, k), Iterated(1.0, start, edges, k + 1), |start|;
    IteratedSame(1.0, start, edges, k);
    SameSizes(start, x);
    RegularMeans(x, edges);
    TotalStays(start, edges, k);
    TotalStays(start, edges, k + 1);
    IteratedStep(1.0, start, edges, k);
    IteratedStep(1.0, start, edges, k + n);
    AdvancedSame(1.0, x, edges);
    IteratedTwice(start, edges, k, n);
    IteratedTwice(start, edges, k + 1, n);
    assert k + 1 + n == k + n + 1;
    StepsContract(x, y, edges);
  }

  lemma {:induction false} ChangesDie(start: map<uint32, Node>, edges: Edges, q: nat)
    requires Regular(start, edges) && Acyclic(edges)
    ensures |start| > 0
    ensures ChangeAt(1.0, start, edges, 1 + q * |start|)
            <= Power(1.0 - Spreads(|start|), q) * ChangeAt(1.0, start, edges, 1)
  {
    hide *;
    RegularMeans(start, edges);
    NoNodesLeft(start);
    var n, factor, first := |start|, 1.0 - Spreads(|start|), ChangeAt(1.0, start, edges, 1);
    SpreadsInRange(n);
    if q == 0 {
      NoPower(factor, first);
    } else {
      ChangesDie(start, edges, q - 1);
      var k := (q - 1) * n;
      assert k + n + 1 == 1 + q * n;
      ChangeShrinks(start, edges, k);
      PowerFollows(factor, q, ChangeAt(1.0, start, edges, k + 1), first);
    }
  }

  lemma NoPower(factor: real, first: real)
    ensures Power(factor, 0) * first == first
  {
  }

  lemma PowerFollows(c: real, q: nat, change: real, first: real)
    requires c >= 0.0 && q > 0 && change <= Power(c, q - 1) * first
    ensures c * change <= Power(c, q) * first
  {
    var p := Power(c, q - 1);
    PowerStep(c, q);
    hide Power;
    Scaled(c, change, p * first);
    Associates(c, p, first);
  }

  lemma SpreadsInRange(n: nat)
    requires n > 0
    ensures 0.0 < Spreads(n) <= 1.0
  {
    InverseInRange(n);
    PowerInRange(1.0 / n as real, n);
  }

  lemma InverseInRange(n: nat)
    requires n > 0
    ensures 0.0 < 1.0 / n as real <= 1.0
  {
  }

  lemma {:induction false} PowerInRange(c: real, k: nat)
    requires 0.0 < c <= 1.0
    ensures 0.0 < Power(c, k) <= 1.0
  {
    if k > 0 {
      PowerInRange(c, k - 1);
      PowerStep(c, k);
      Positive(c, Power(c, k - 1));
    }
  }

  lemma Positive(a: real, b: real)
    requires 0.0 < a <= 1.0 && 0.0 < b <= 1.0
    ensures 0.0 < a * b <= 1.0
  {
    AtMost(a, b);
  }

  /** With damping 1, as the indexer calls it: ranking an acyclic graph converges for every epsilon. */
  lemma AcyclicRankingConverges(epsilon: real, nodes: map<uint32, Node>, edges: Edges)
    requires epsilon > 0.0 && Acyclic(edges) && NonNegativeWeights(edges) && nodes != map[]
    requires Within(edges, nodes) && OutboundRight(edges, nodes)
    ensures exists n :: EnoughRounds(1.0, epsilon, nodes, edges, n)
  {
    hide *;
    var start := Levelled(nodes);
    LevelledSame(nodes);
    SameSizes(nodes, start);
    StructureAgrees(nodes, start, edges);
    RegularMeans(start, edges);
    NoNodesLeft(start);
    SpreadsInRange(|start|);
    var q := SmallEnough(1.0 - Spreads(|start|), ChangeAt(1.0, start, edges, 1), epsilon);
    ChangesDie(start, edges, q);
    SmallChangeEnds(1.0, epsilon, nodes, edges, 1 + q * |start|);
  }
}
