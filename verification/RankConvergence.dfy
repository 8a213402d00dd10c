/** Why ranking comes to an end: with weights that are not negative, each iteration changes less than the one before. */
module RankConvergence {
  import opened Sums
  import opened GraphSpec

  ghost predicate NonNegativeWeights(edges: Edges) {
    forall s, t :: Weight(edges, s, t) >= 0.0
  }

  lemma {:induction false} SumBounded<K>(s: set<K>, f: K -> real, g: K -> real)
    requires forall k :: k in s ==> f(k) <= g(k)
    ensures Sum(s, f) <= Sum(s, g)
  {
    if s != {} {
      SumBounded(s - {Pick(s)}, f, g);
    }
  }

  /** The sums differ by no more than the sum of the differences. */
  lemma {:induction false} SumsDiffer<K>(s: set<K>, f: K -> real, g: K -> real, h: K -> real)
    requires forall k :: k in s ==> Abs(f(k) - g(k)) <= h(k)
    ensures Abs(Sum(s, f) - Sum(s, g)) <= Sum(s, h)
  {
    if s != {} {
      SumsDiffer(s - {Pick(s)}, f, g, h);
    }
  }

  /** The nodes with the amounts by which their rankings differ. */
  ghost function Difference(x: map<uint32, Node>, y: map<uint32, Node>): map<uint32, Node> {
    map i | i in x :: x[i].(ranking := Abs(RankingOf(y, i) - RankingOf(x, i)))
  }

  lemma DifferenceIs(x: map<uint32, Node>, y: map<uint32, Node>)
    requires SameNodes(x, y)
    ensures SameNodes(x, Difference(x, y)) && Difference(x, y).Keys == x.Keys == y.Keys
    ensures forall i :: RankingOf(Difference(x, y), i) == Abs(RankingOf(y, i) - RankingOf(x, i))
  {
  }

  lemma ProductsDiffer(a: real, x: real, y: real)
    requires a >= 0.0
    ensures Abs(a * y - a * x) == a * Abs(y - x)
  {
  }

  lemma FlowsDiffer(alpha: real, x: map<uint32, Node>, y: map<uint32, Node>, edges: Edges, s: uint32, t: uint32)
    requires SameNodes(x, y) && alpha >= 0.0 && NonNegativeWeights(edges)
    ensures Abs(Flow(alpha, y, edges, s, t) - Flow(alpha, x, edges, s, t)) <= Flow(alpha, Difference(x, y), edges, s, t)
  {
    DifferenceIs(x, y);
    SharesAgree(x, y, edges, s, t);
    SharesAgree(x, Difference(x, y), edges, s, t);
    var share := Share(x, edges, s, t);
    hide Share, RankingOf, SameNodes, NonNegativeWeights;
    FlowIs(alpha, RankingOf(x, s), share);
    FlowIs(alpha, RankingOf(y, s), share);
    FlowIs(alpha, RankingOf(Difference(x, y), s), share);
    ProductsDiffer(alpha * share, RankingOf(x, s), RankingOf(y, s));
  }

  lemma FlowIs(alpha: real, ranking: real, share: real)
    requires alpha >= 0.0 && share >= 0.0
    ensures alpha * ranking * share == alpha * share * ranking && alpha * share >= 0.0
  {
  }

  lemma SharesAgree(x: map<uint32, Node>, y: map<uint32, Node>, edges: Edges, s: uint32, t: uint32)
    requires SameNodes(x, y) && NonNegativeWeights(edges)
    ensures Share(y, edges, s, t) == Share(x, edges, s, t) >= 0.0
  {
    assert Weight(edges, s, t) >= 0.0;
    if s in x && x[s].outbound > 0.0 {
      NoQuotientNegative(Weight(edges, s, t), x[s].outbound);
    }
  }

  lemma NoQuotientNegative(a: real, b: real)
    requires a >= 0.0 && b > 0.0
    ensures a / b >= 0.0
  {
  }

  lemma PassedDiffers(alpha: real, x: map<uint32, Node>, y: map<uint32, Node>, edges: Edges, t: uint32)
    requires SameNodes(x, y) && alpha >= 0.0 && NonNegativeWeights(edges)
    ensures Abs(Passed(alpha, y, edges, x.Keys, t) - Passed(alpha, x, edges, x.Keys, t))
            <= Passed(alpha, Difference(x, y), edges, x.Keys, t)
  {
    hide Sum, Flow, Difference, SameNodes, NonNegativeWeights, Abs;
    var d := Difference(x, y);
    var f, g := (s: uint32) => Flow(alpha, y, edges, s, t), (s: uint32) => Flow(alpha, x, edges, s, t);
    var h := (s: uint32) => Flow(alpha, d, edges, s, t);
    forall s | s in x.Keys ensures Abs(f(s) - g(s)) <= h(s) {
      FlowsDiffer(alpha, x, y, edges, s, t);
    }
    SumsDiffer(x.Keys, f, g, h);
    SumSame(x.Keys, f, s => Flow(alpha, y, edges, s, t));
    SumSame(x.Keys, g, s => Flow(alpha, x, edges, s, t));
    SumSame(x.Keys, h, s => Flow(alpha, d, edges, s, t));
  }

  ghost function Leaked(nodes: map<uint32, Node>): real {
    Sum(nodes.Keys, i => Leaking(nodes, i))
  }

  lemma LeaksDiffer(x: map<uint32, Node>, y: map<uint32, Node>)
    requires SameNodes(x, y)
    ensures Abs(Leaked(y) - Leaked(x)) <= Leaked(Difference(x, y))
  {
    DifferenceIs(x, y);
    var d := Difference(x, y);
    assert y.Keys == x.Keys == d.Keys;
    var f, g, h := (i: uint32) => Leaking(y, i), (i: uint32) => Leaking(x, i), (i: uint32) => Leaking(d, i);
    forall i | i in x.Keys ensures Abs(f(i) - g(i)) <= h(i) {
      LeakDiffers(x, y, i);
    }
    hide Sum, Leaking, Difference, SameNodes, Abs;
    SumsDiffer(x.Keys, f, g, h);
    SumSame(x.Keys, f, i => Leaking(y, i));
    SumSame(x.Keys, g, i => Leaking(x, i));
    SumSame(x.Keys, h, i => Leaking(d, i));
  }

  lemma LeakDiffers(x: map<uint32, Node>, y: map<uint32, Node>, i: uint32)
    requires SameNodes(x, y)
    ensures Abs(Leaking(y, i) - Leaking(x, i)) <= Leaking(Difference(x, y), i)
  {
  }

  /** What each of n nodes gets besides what is passed on to it. */
  function Everyone(alpha: real, leaked: real, n: real): real
    requires n > 0.0
  {
    (1.0 - alpha + alpha * leaked) / n
  }

  lemma QuotientsDiffer(a: real, b: real, c: real, alpha: real, n: real)
    requires Abs(b - a) <= c && alpha >= 0.0 && n > 0.0
    ensures Abs(Everyone(alpha, b, n) - Everyone(alpha, a, n)) <= Everyone(alpha, c, n) - (1.0 - alpha) / n
  {
    hide Abs;
    var base := 1.0 - alpha;
    var p, q, top := base + alpha * b, base + alpha * a, base + alpha * c;
    assert p - q == alpha * b - alpha * a;
    ProductsDiffer(alpha, a, b);
    Scaled(alpha, Abs(b - a), c);
    QuotientsWithin(p, q, alpha * c, n);
    OverDiffers(top, base, n);
  }

  lemma QuotientsWithin(p: real, q: real, e: real, n: real)
    requires Abs(p - q) <= e && n > 0.0
    ensures Abs(p / n - q / n) <= e / n
  {
    OverDiffers(p, q, n);
    OverDiffers(q, p, n);
    OverRises(p - q, e, n);
    OverRises(q - p, e, n);
  }

  lemma OverDiffers(p: real, q: real, n: real)
    requires n > 0.0
    ensures p / n - q / n == (p - q) / n
  {
  }

  lemma OverRises(a: real, b: real, n: real)
    requires a <= b && n > 0.0
    ensures a / n <= b / n
  {
  }

  lemma Scaled(r: real, x: real, y: real)
    requires r >= 0.0 && x <= y
    ensures r * x <= r * y
  {
  }

  lemma NextDiffers(alpha: real, x: map<uint32, Node>, y: map<uint32, Node>, edges: Edges, t: uint32)
    requires SameNodes(x, y) && alpha >= 0.0 && NonNegativeWeights(edges) && x != map[] && |x| > 0
    ensures Abs(NextRanking(alpha, y, edges, t) - NextRanking(alpha, x, edges, t))
            <= NextRanking(alpha, Difference(x, y), edges, t) - (1.0 - alpha) / |x| as real
  {
    hide *;
    DifferenceIs(x, y);
    var d, n := Difference(x, y), |x| as real;
    SameSizes(x, y);
    SameSizes(x, d);
    PassedDiffers(alpha, x, y, edges, t);
    LeaksDiffer(x, y);
    QuotientsDiffer(Leaked(x), Leaked(y), Leaked(d), alpha, n);
    NextParts(alpha, x, edges, t);
    NextParts(alpha, y, edges, t);
    NextParts(alpha, d, edges, t);
    AbsAdds(Passed(alpha, y, edges, x.Keys, t), Passed(alpha, x, edges, x.Keys, t), Passed(alpha, d, edges, x.Keys, t),
            Everyone(alpha, Leaked(y), n), Everyone(alpha, Leaked(x), n), Everyone(alpha, Leaked(d), n),
            (1.0 - alpha) / n);
  }

  lemma AbsAdds(a: real, b: real, e: real, a': real, b': real, e': real, base: real)
    requires Abs(a - b) <= e && Abs(a' - b') <= e' - base
    ensures Abs((a + a') - (b + b')) <= (e + e') - base
  {
  }

  lemma SameSizes(x: map<uint32, Node>, y: map<uint32, Node>)
    requires SameNodes(x, y)
    ensures x.Keys == y.Keys && |x| == |y| && (x != map[] ==> y != map[])
  {
    assert |x| == |x.Keys| && |y| == |y.Keys|;
    if x != map[] {
      var i :| i in x;
      assert i in y;
    }
  }

  lemma NextParts(alpha: real, nodes: map<uint32, Node>, edges: Edges, t: uint32)
    requires nodes != map[] && |nodes| > 0
    ensures NextRanking(alpha, nodes, edges, t)
            == Passed(alpha, nodes, edges, nodes.Keys, t) + Everyone(alpha, Leaked(nodes), |nodes| as real)
  {
    hide Sum, Flow, Leaking;
  }

  // ---------- the contraction ----------

  ghost function NextTotal(alpha: real, nodes: map<uint32, Node>, edges: Edges): real {
    Sum(nodes.Keys, t => NextRanking(alpha, nodes, edges, t))
  }

  lemma DifferenceTotal(x: map<uint32, Node>, y: map<uint32, Node>)
    requires SameNodes(x, y)
    ensures TotalRanking(Difference(x, y)) == Moved(x, y)
  {
    DifferenceIs(x, y);
    var d := Difference(x, y);
    assert d.Keys == y.Keys;
    hide Sum, RankingOf, Abs, Difference, SameNodes;
    SumSame(y.Keys, i => RankingOf(d, i), i => Abs(RankingOf(y, i) - RankingOf(x, i)));
  }

  /** With weights that are not negative no node's outbound is negative, so no ranking is lost. */
  lemma WeightsKeep(nodes: map<uint32, Node>, edges: Edges)
    requires OutboundRight(edges, nodes) && NonNegativeWeights(edges)
    ensures Sum(nodes.Keys, i => Lost(nodes, i)) == 0.0
  {
    forall i | i in nodes ensures Lost(nodes, i) == 0.0 {
      assert nodes[i].outbound == OutSum(edges, i);
      if i in edges {
        NonNegativeSum(edges[i].Keys, t => Weight(edges, i, t));
      }
    }
    hide Sum, Lost, OutSum;
    SumZero(nodes.Keys, i => Lost(nodes, i));
  }

  lemma {:induction false} NonNegativeSum<K>(s: set<K>, f: K -> real)
    requires forall k :: k in s ==> f(k) >= 0.0
    ensures Sum(s, f) >= 0.0
  {
    if s != {} {
      NonNegativeSum(s - {Pick(s)}, f);
    }
  }

  lemma NextTotalIs(alpha: real, nodes: map<uint32, Node>, edges: Edges)
    requires Within(edges, nodes) && OutboundRight(edges, nodes) && nodes != map[] && NonNegativeWeights(edges)
    ensures NextTotal(alpha, nodes, edges) == 1.0 - alpha + alpha * TotalRanking(nodes)
  {
    RankingTotalAfter(alpha, nodes, edges);
    WeightsKeep(nodes, edges);
    hide Sum, NextRanking, TotalRanking, Lost, Within, OutboundRight, NonNegativeWeights;
  }

  lemma AdvancedSame(alpha: real, x: map<uint32, Node>, edges: Edges)
    ensures SameNodes(x, Advanced(alpha, x, edges)) && Advanced(alpha, x, edges).Keys == x.Keys
    ensures forall t :: t in x ==> RankingOf(Advanced(alpha, x, edges), t) == NextRanking(alpha, x, edges, t)
  {
    hide NextRanking;
  }

  /** One iteration brings any two rankings of a graph closer by the damping factor. */
  lemma IterationContracts(alpha: real, x: map<uint32, Node>, y: map<uint32, Node>, edges: Edges)
    requires SameNodes(x, y) && alpha >= 0.0 && NonNegativeWeights(edges) && x != map[]
    requires Within(edges, x) && OutboundRight(edges, x)
    ensures Moved(Advanced(alpha, x, edges), Advanced(alpha, y, edges)) <= alpha * Moved(x, y)
  {
    hide *;
    var d := Difference(x, y);
    NoNodesLeft(x);
    DifferenceIs(x, y);
    SameSizes(x, d);
    StructureAgrees(x, d, edges);
    NextTotalIs(alpha, d, edges);
    DifferenceTotal(x, y);
    MovedNext(alpha, x, y, edges);
  }

  lemma MovedNext(alpha: real, x: map<uint32, Node>, y: map<uint32, Node>, edges: Edges)
    requires SameNodes(x, y) && alpha >= 0.0 && NonNegativeWeights(edges) && x != map[] && |x| > 0
    ensures Moved(Advanced(alpha, x, edges), Advanced(alpha, y, edges))
            <= NextTotal(alpha, Difference(x, y), edges) - (1.0 - alpha)
  {
    hide *;
    var d, x', y' := Difference(x, y), Advanced(alpha, x, edges), Advanced(alpha, y, edges);
    DifferenceIs(x, y);
    AdvancedSame(alpha, x, edges);
    AdvancedSame(alpha, y, edges);
    var moved := (t: uint32) => Abs(RankingOf(y', t) - RankingOf(x', t));
    var next := (t: uint32) => NextRanking(alpha, d, edges, t);
    var c := (1.0 - alpha) / |x| as real;
    forall t | t in x.Keys ensures moved(t) <= next(t) - c {
      NextDiffers(alpha, x, y, edges, t);
    }
    SumShifted(x.Keys, moved, next, c);
    MovedIs(x', y', moved);
    NextTotalAs(alpha, d, edges, next);
    Cancel(1.0 - alpha, |x| as real);
    assert |x.Keys| == |x|;
  }

  lemma SumShifted(s: set<uint32>, f: uint32 -> real, g: uint32 -> real, c: real)
    requires forall t :: t in s ==> f(t) <= g(t) - c
    ensures Sum(s, f) <= Sum(s, g) - c * |s| as real
  {
    hide Sum;
    var shifted, constant := (t: uint32) => g(t) - c, (_: uint32) => c;
    SumBounded(s, f, shifted);
    SumPlus(s, shifted, constant, g);
    SumSame(s, constant, _ => c);
    SumConstant(s, c);
  }

  lemma MovedIs(x: map<uint32, Node>, y: map<uint32, Node>, moved: uint32 -> real)
    requires forall t :: moved(t) == Abs(RankingOf(y, t) - RankingOf(x, t))
    ensures Moved(x, y) == Sum(y.Keys, moved)
  {
    hide Sum, Abs, RankingOf;
    SumSame(y.Keys, moved, i => Abs(RankingOf(y, i) - RankingOf(x, i)));
  }

  lemma NextTotalAs(alpha: real, nodes: map<uint32, Node>, edges: Edges, next: uint32 -> real)
    requires forall t :: next(t) == NextRanking(alpha, nodes, edges, t)
    ensures NextTotal(alpha, nodes, edges) == Sum(nodes.Keys, next)
  {
    hide Sum, NextRanking;
    SumSame(nodes.Keys, next, t => NextRanking(alpha, nodes, edges, t));
  }

  lemma StructureAgrees(x: map<uint32, Node>, y: map<uint32, Node>, edges: Edges)
    requires SameNodes(x, y) && Within(edges, x) && OutboundRight(edges, x)
    ensures Within(edges, y) && OutboundRight(edges, y)
  {
    hide OutSum, Edge;
  }

  // ---------- convergence ----------

  lemma {:induction false} IteratedSame(alpha: real, start: map<uint32, Node>, edges: Edges, k: nat)
    requires Within(edges, start) && OutboundRight(edges, start)
    ensures var now := Iterated(alpha, start, edges, k);
      SameNodes(start, now) && Within(edges, now) && OutboundRight(edges, now) && (start != map[] ==> now != map[])
  {
    hide Within, OutboundRight, SameNodes, Advanced;
    if k > 0 {
      var before := Iterated(alpha, start, edges, k - 1);
      IteratedSame(alpha, start, edges, k - 1);
      AdvancedSame(alpha, before, edges);
      SameNodesTransitive(start, before, Iterated(alpha, start, edges, k));
      SameSizes(before, Iterated(alpha, start, edges, k));
      StructureAgrees(start, Iterated(alpha, start, edges, k), edges);
    } else {
      SameNodesReflexive(start);
    }
  }

  /** Each iteration changes the rankings by at most alpha times what the one before did. */
  lemma ChangesShrink(alpha: real, start: map<uint32, Node>, edges: Edges, k: nat)
    requires alpha >= 0.0 && NonNegativeWeights(edges) && k > 0 && start != map[]
    requires Within(edges, start) && OutboundRight(edges, start)
    ensures ChangeAt(alpha, start, edges, k + 1) <= alpha * ChangeAt(alpha, start, edges, k)
  {
    hide *;
    var x, y := Iterated(alpha, start, edges, k - 1), Iterated(alpha, start, edges, k);
    IteratedStep(alpha, start, edges, k - 1);
    IteratedStep(alpha, start, edges, k);
    IteratedSame(alpha, start, edges, k - 1);
    AdvancedSame(alpha, x, edges);
    IterationContracts(alpha, x, y, edges);
  }

  function Power(alpha: real, k: nat): real {
    if k == 0 then 1.0 else alpha * Power(alpha, k - 1)
  }

  lemma {:induction false} ChangesVanish(alpha: real, start: map<uint32, Node>, edges: Edges, k: nat)
    requires alpha >= 0.0 && NonNegativeWeights(edges) && start != map[]
    requires Within(edges, start) && OutboundRight(edges, start)
    ensures ChangeAt(alpha, start, edges, k + 1) <= Power(alpha, k) * ChangeAt(alpha, start, edges, 1)
  {
    hide ChangeAt, Within, OutboundRight, NonNegativeWeights;
    if k > 0 {
      ChangesVanish(alpha, start, edges, k - 1);
      ChangesShrink(alpha, start, edges, k);
      var before, first := ChangeAt(alpha, start, edges, k), ChangeAt(alpha, start, edges, 1);
      Scaled(alpha, before, Power(alpha, k - 1) * first);
      Associates(alpha, Power(alpha, k - 1), first);
    }
  }

  lemma Associates(a: real, b: real, c: real)
    ensures a * (b * c) == (a * b) * c
  {
  }

  /** Powers of a damping below 1 fall at least as fast as 1 / (1 + k * (1 - alpha)). */
  lemma {:induction false} PowersFall(alpha: real, k: nat)
    requires 0.0 <= alpha < 1.0
    ensures 0.0 <= Power(alpha, k) <= 1.0 && Power(alpha, k) * (1.0 + k as real * (1.0 - alpha)) <= 1.0
  {
    if k > 0 {
      PowersFall(alpha, k - 1);
      PowerFalls(alpha, 1.0 - alpha, Power(alpha, k - 1), (k - 1) as real);
    }
  }

  lemma PowerFalls(alpha: real, gap: real, p: real, k: real)
    requires alpha >= 0.0 && gap > 0.0 && alpha + gap == 1.0
    requires 0.0 <= p <= 1.0 && k >= 0.0 && p * (1.0 + k * gap) <= 1.0
    ensures 0.0 <= alpha * p <= 1.0 && alpha * p * (1.0 + (k + 1.0) * gap) <= 1.0
  {
    Scaled(alpha, p, 1.0);
    Scaled(alpha, 0.0, p);
    Shared(alpha, gap, p * (1.0 + k * gap), alpha * p);
    Expanded(alpha, p, k, gap);
  }

  lemma Shared(a: real, b: real, x: real, y: real)
    requires a >= 0.0 && b >= 0.0 && x <= 1.0 && y <= 1.0
    ensures a * x + b * y <= a + b
  {
    AtMost(a, x);
    AtMost(b, y);
  }

  lemma AtMost(a: real, x: real)
    requires a >= 0.0 && x <= 1.0
    ensures a * x <= a
  {
    assert a - a * x == a * (1.0 - x);
  }

  lemma Expanded(a: real, p: real, k: real, gap: real)
    ensures a * p * (1.0 + (k + 1.0) * gap) == a * (p * (1.0 + k * gap)) + gap * (a * p)
  {
    var x := k * gap;
    assert (k + 1.0) * gap == x + gap;
    assert a * p * (1.0 + (x + gap)) == a * (p * (1.0 + x)) + gap * (a * p);
  }

  /** Some power brings any amount down to epsilon. */
  lemma SmallEnough(alpha: real, first: real, epsilon: real) returns (k: nat)
    requires 0.0 <= alpha < 1.0 && epsilon > 0.0
    ensures Power(alpha, k) * first <= epsilon
  {
    var gap := (1.0 - alpha) * epsilon;
    assert gap > 0.0;
    if first <= 0.0 {
      k := 0;
      return;
    }
    var n := first / gap;
    OverIs(first, gap);
    assert n >= 0.0;
    k := (n.Floor + 1) as nat;
    PowersFall(alpha, k);
    Bounding(Power(alpha, k), k as real, 1.0 - alpha, epsilon, first, n);
  }

  lemma OverIs(x: real, n: real)
    requires n > 0.0 && x > 0.0
    ensures x / n > 0.0 && x / n * n == x
  {
  }

  lemma Bounding(p: real, k: real, gap: real, epsilon: real, first: real, n: real)
    requires gap > 0.0 && epsilon > 0.0 && k >= n >= 0.0 && n * (gap * epsilon) == first > 0.0
    requires 0.0 <= p <= 1.0 && p * (1.0 + k * gap) <= 1.0
    ensures p * first <= epsilon
  {
    Scaled(gap, n, k);
    Scaled(p, n * gap, 1.0 + k * gap);
    Scaled(epsilon, p * (n * gap), 1.0);
    assert p * first == epsilon * (p * (n * gap)) by {
      Rearranged(p, n, gap, epsilon);
    }
  }

  lemma Rearranged(p: real, n: real, gap: real, epsilon: real)
    ensures p * (n * (gap * epsilon)) == epsilon * (p * (n * gap))
  {
  }

  /** So many rounds are enough for Rank to converge. */
  ghost predicate EnoughRounds(alpha: real, epsilon: real, nodes: map<uint32, Node>, edges: Edges, n: nat) {
    forall rounds: nat, k: nat, after: map<uint32, Node>, converged: bool ::
      RankedIn(alpha, epsilon, rounds, nodes, edges, k, after, converged) && rounds >= n ==> converged
  }

  /** With damping below 1 and no negative weights, ranking converges for every epsilon. */
  lemma RankingConverges(alpha: real, epsilon: real, nodes: map<uint32, Node>, edges: Edges)
    requires 0.0 <= alpha < 1.0 && epsilon > 0.0 && NonNegativeWeights(edges) && nodes != map[]
    requires Within(edges, nodes) && OutboundRight(edges, nodes)
    ensures exists n :: EnoughRounds(alpha, epsilon, nodes, edges, n)
  {
    hide *;
    var start := Levelled(nodes);
    LevelledSame(nodes);
    SameSizes(nodes, start);
    StructureAgrees(nodes, start, edges);
    var k := SmallEnough(alpha, ChangeAt(alpha, start, edges, 1), epsilon);
    ChangesVanish(alpha, start, edges, k);
    SmallChangeEnds(alpha, epsilon, nodes, edges, k + 1);
  }

  lemma LevelledSame(nodes: map<uint32, Node>)
    ensures SameNodes(nodes, Levelled(nodes))
  {
  }

  lemma SmallChangeEnds(alpha: real, epsilon: real, nodes: map<uint32, Node>, edges: Edges, n: nat)
    requires n > 0 && ChangeAt(alpha, Levelled(nodes), edges, n) <= epsilon
    ensures EnoughRounds(alpha, epsilon, nodes, edges, n)
  {
    hide ChangeAt, Levelled, Iterated;
  }

  // ---------- damping 1 ----------

  /** A node in the middle that represents two others, and is represented by them. */
  const StarEdges: Edges := map[0 := map[1 := 1.0, 2 := 1.0], 1 := map[0 := 1.0], 2 := map[0 := 1.0]]

  function Star(middle: real, outer: real): map<uint32, Node> {
    map[0 := Node("m", middle, 2.0), 1 := Node("a", outer, 1.0), 2 := Node("b", outer, 1.0)]
  }

  const Three: set<uint32> := {0, 1, 2}

  lemma SumThree(f: uint32 -> real)
    ensures Sum(Three, f) == f(0) + f(1) + f(2)
  {
    SumTake(Three, 0, f);
    assert Three - {0} == {1, 2};
    SumTwo(1, 2, f);
  }

  lemma SumTwo(a: uint32, b: uint32, f: uint32 -> real)
    requires a != b
    ensures Sum({a, b}, f) == f(a) + f(b)
  {
    SumTake({a, b}, a, f);
    assert {a, b} - {a} == {b};
    SumPoint({b}, b, f);
  }

  lemma StarIsGraph(middle: real, outer: real)
    ensures Within(StarEdges, Star(middle, outer)) && OutboundRight(StarEdges, Star(middle, outer))
    ensures NonNegativeWeights(StarEdges) && Star(middle, outer).Keys == Three && |Star(middle, outer)| == 3
  {
    var nodes := Star(middle, outer);
    assert nodes.Keys == Three && |nodes| == |nodes.Keys|;
    StarOutbound();
    hide OutSum;
  }

  lemma StarOutbound()
    ensures OutSum(StarEdges, 0) == 2.0 && OutSum(StarEdges, 1) == OutSum(StarEdges, 2) == 1.0
  {
    assert StarEdges[0].Keys == {1, 2} && StarEdges[1].Keys == {0} && StarEdges[2].Keys == {0};
    SumTwo(1, 2, (t: uint32) => Weight(StarEdges, 0, t));
    SumPoint<uint32>({0}, 0, (t: uint32) => Weight(StarEdges, 1, t));
    SumPoint<uint32>({0}, 0, (t: uint32) => Weight(StarEdges, 2, t));
  }

  lemma StarFlow(middle: real, outer: real, s: uint32, t: uint32)
    requires s in Three && t in Three
    ensures Flow(1.0, Star(middle, outer), StarEdges, s, t)
            == if s == 0 && t != 0 then middle / 2.0 else if s != 0 && t == 0 then outer else 0.0
  {
  }

  lemma StarLeak(middle: real, outer: real, i: uint32)
    requires i in Three
    ensures Leaking(Star(middle, outer), i) == 0.0
  {
  }

  lemma StarPassed(middle: real, outer: real, t: uint32)
    requires t in Three
    ensures NextRanking(1.0, Star(middle, outer), StarEdges, t) == if t == 0 then 2.0 * outer else middle / 2.0
  {
    hide *;
    var nodes := Star(middle, outer);
    StarIsGraph(middle, outer);
    ThreeAre();
    forall s: uint32 | s in Three
      ensures Flow(1.0, nodes, StarEdges, s, t)
              == if s == 0 && t != 0 then middle / 2.0 else if s != 0 && t == 0 then outer else 0.0
    {
      StarFlow(middle, outer, s, t);
    }
    forall i: uint32 | i in Three ensures Leaking(nodes, i) == 0.0 {
      StarLeak(middle, outer, i);
    }
    NextParts(1.0, nodes, StarEdges, t);
    PassedFromThree(nodes, t);
    LeakedFromThree(nodes);
    NothingOver(Leaked(nodes), |nodes| as real);
  }

  lemma NothingOver(leaked: real, n: real)
    requires leaked == 0.0 && n > 0.0
    ensures Everyone(1.0, leaked, n) == 0.0
  {
  }

  lemma ThreeAre()
    ensures 0 in Three && 1 in Three && 2 in Three && forall s: uint32 :: s in Three <==> s == 0 || s == 1 || s == 2
  {
  }

  lemma PassedFromThree(nodes: map<uint32, Node>, t: uint32)
    ensures Passed(1.0, nodes, StarEdges, Three, t)
            == Flow(1.0, nodes, StarEdges, 0, t) + Flow(1.0, nodes, StarEdges, 1, t) + Flow(1.0, nodes, StarEdges, 2, t)
  {
    SumThree((s: uint32) => Flow(1.0, nodes, StarEdges, s, t));
  }

  lemma LeakedFromThree(nodes: map<uint32, Node>)
    requires nodes.Keys == Three
    ensures Leaked(nodes) == Leaking(nodes, 0) + Leaking(nodes, 1) + Leaking(nodes, 2)
  {
    SumThree((i: uint32) => Leaking(nodes, i));
  }

  lemma StarNext(middle: real, outer: real)
    ensures Advanced(1.0, Star(middle, outer), StarEdges) == Star(2.0 * outer, middle / 2.0)
  {
    hide *;
    StarIsGraph(middle, outer);
    AdvancedSame(1.0, Star(middle, outer), StarEdges);
    ThreeAre();
    forall t: uint32 | t in Three
      ensures RankingOf(Advanced(1.0, Star(middle, outer), StarEdges), t)
              == if t == 0 then 2.0 * outer else middle / 2.0
    {
      StarPassed(middle, outer, t);
    }
    StarFrom(middle, outer, Advanced(1.0, Star(middle, outer), StarEdges), 2.0 * outer, middle / 2.0);
  }

  lemma StarFrom(middle: real, outer: real, nodes: map<uint32, Node>, middle': real, outer': real)
    requires SameNodes(Star(middle, outer), nodes)
    requires RankingOf(nodes, 0) == middle' && RankingOf(nodes, 1) == RankingOf(nodes, 2) == outer'
    ensures nodes == Star(middle', outer')
  {
  }

  lemma StarMoved(middle: real, outer: real, middle': real, outer': real)
    ensures Moved(Star(middle, outer), Star(middle', outer')) == Abs(middle' - middle) + 2.0 * Abs(outer' - outer)
  {
    hide *;
    StarIsGraph(middle', outer');
    StarRankings(middle, outer);
    StarRankings(middle', outer');
    MovedFromThree(Star(middle, outer), Star(middle', outer'));
  }

  lemma StarRankings(middle: real, outer: real)
    ensures RankingOf(Star(middle, outer), 0) == middle
    ensures RankingOf(Star(middle, outer), 1) == RankingOf(Star(middle, outer), 2) == outer
  {
  }

  lemma MovedFromThree(x: map<uint32, Node>, y: map<uint32, Node>)
    requires y.Keys == Three
    ensures Moved(x, y) == Abs(RankingOf(y, 0) - RankingOf(x, 0)) + Abs(RankingOf(y, 1) - RankingOf(x, 1))
                           + Abs(RankingOf(y, 2) - RankingOf(x, 2))
  {
    hide Sum, RankingOf, Abs;
    var moved := (i: uint32) => Abs(RankingOf(y, i) - RankingOf(x, i));
    SumThree(moved);
    MovedIs(x, y, moved);
  }

  lemma {:induction false} StarSwings(k: nat)
    ensures Iterated(1.0, Star(1.0 / 3.0, 1.0 / 3.0), StarEdges, k)
            == if k % 2 == 0 then Star(1.0 / 3.0, 1.0 / 3.0) else Star(2.0 / 3.0, 1.0 / 6.0)
  {
    hide *;
    var start := Star(1.0 / 3.0, 1.0 / 3.0);
    if k == 0 {
      IteratedStep(1.0, start, StarEdges, 0);
    } else {
      StarSwings(k - 1);
      IteratedStep(1.0, start, StarEdges, k - 1);
      StarNext(1.0 / 3.0, 1.0 / 3.0);
      StarNext(2.0 / 3.0, 1.0 / 6.0);
      assert 2.0 * (1.0 / 3.0) == 2.0 / 3.0 && 1.0 / 3.0 / 2.0 == 1.0 / 6.0;
      assert 2.0 * (1.0 / 6.0) == 1.0 / 3.0 && 2.0 / 3.0 / 2.0 == 1.0 / 3.0;
    }
  }

  /** With damping 1 the star swings for ever: no number of rounds brings the change below two thirds. */
  lemma StarNeverSettles(epsilon: real, rounds: nat, ranking: real, k: nat, after: map<uint32, Node>, converged: bool)
    requires epsilon < 2.0 / 3.0
    requires RankedIn(1.0, epsilon, rounds, Star(ranking, ranking), StarEdges, k, after, converged)
    ensures Within(StarEdges, Star(ranking, ranking)) && OutboundRight(StarEdges, Star(ranking, ranking))
    ensures NonNegativeWeights(StarEdges) && !converged && k == rounds
  {
    hide *;
    StarIsGraph(ranking, ranking);
    StarStart(ranking);
    StarRanked(epsilon, rounds, Star(ranking, ranking), k, after, converged);
    if k > 0 {
      StarSwings(k - 1);
      StarSwings(k);
      IteratedStep(1.0, Star(1.0 / 3.0, 1.0 / 3.0), StarEdges, k - 1);
      StarMoved(1.0 / 3.0, 1.0 / 3.0, 2.0 / 3.0, 1.0 / 6.0);
      StarMoved(2.0 / 3.0, 1.0 / 6.0, 1.0 / 3.0, 1.0 / 3.0);
      ThirdsAndSixths();
    }
  }

  lemma ThirdsAndSixths()
    ensures Abs(2.0 / 3.0 - 1.0 / 3.0) + 2.0 * Abs(1.0 / 6.0 - 1.0 / 3.0) == 2.0 / 3.0
    ensures Abs(1.0 / 3.0 - 2.0 / 3.0) + 2.0 * Abs(1.0 / 3.0 - 1.0 / 6.0) == 2.0 / 3.0
  {
  }

  lemma StarStart(ranking: real)
    ensures Levelled(Star(ranking, ranking)) == Star(1.0 / 3.0, 1.0 / 3.0)
  {
    StarIsGraph(ranking, ranking);
  }

  lemma StarRanked(epsilon: real, rounds: nat, before: map<uint32, Node>, k: nat, after: map<uint32, Node>,
                   converged: bool)
    requires epsilon < 1.0 && RankedIn(1.0, epsilon, rounds, before, StarEdges, k, after, converged)
    ensures converged ==> k > 0 && ChangeAt(1.0, Levelled(before), StarEdges, k) <= epsilon
    ensures k <= rounds && (k < rounds ==> converged)
  {
  }
}
