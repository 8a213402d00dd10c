/**
 * What holds of the plot store and the ledger database together in every reachable state,
 * and the facts about values that the processor's steps rest on.
 */
module ThreadState {
  import opened Plots
  import opened Balances
  import opened LedgerSpec
  import opened LedgerProofs
  import opened Tree
  import opened Consensus

  /** The header hash never gives zero: nothing is stored under the ID that genesis names as its parent. */
  ghost predicate RulesOk(rules: Rules) {
    forall header :: rules.hash(header) > 0
  }

  /** The plot every node starts from. */
  ghost predicate GenesisPlot(plot: Plot) {
    && plot.header.height == 0 && plot.header.previous == 0
    && plot.header.target == INITIAL_TARGET
    && |plot.reps| == 1 && WellShaped(plot) && SeriesRight(plot)
  }

  function HeadersOf(chain: Thread): (headers: seq<PlotHeader>)
    ensures |headers| == |chain|
  {
    seq(|chain|, i requires 0 <= i < |chain| => chain[i].plot.header)
  }

  ghost function PathTo(rules: Rules, plots: Plots, id: PlotID): Thread {
    Path(plots, rules.genesisID, id)
  }

  /** What acceptance has checked of a plot besides its place in the tree. */
  ghost predicate Accepted(rules: Rules, parent: Thread, plot: Plot) {
    && parent != []
    && plot.header.target > 0
    && (|parent| <= BITCOIN_CASH_RETARGET_ALGORITHM_HEIGHT ==> plot.header.target == BitcoinTarget(HeadersOf(parent)))
    && ThreadWork(plot.header.target, parent[|parent| - 1].plot.header.threadWork) == Some(plot.header.threadWork)
    && plot.header.time > MedianTimestamp(HeadersOf(parent))
    && (forall i :: 1 <= i < |plot.reps| ==>
          Checked(rules, plot.reps[i]) && IncludableAt(plot.reps[i], plot.header.height))
  }

  /** The sizes that the shape checks let through. */
  predicate Bounded(plot: Plot) {
    && 0 <= plot.header.height <= MAX_NUMBER
    && |plot.reps| <= MAX_REPRESENTATIONS_PER_PLOT
    && forall i :: 0 <= i < |plot.reps| ==>
         |plot.reps[i].forKey| == PUBLIC_KEY_SIZE
         && (plot.reps[i].byKey.Some? ==> |plot.reps[i].byKey.value| == PUBLIC_KEY_SIZE)
  }

  ghost predicate PlotOk(rules: Rules, plots: Plots, id: PlotID)
    requires id in plots
  {
    var plot := plots[id].plot;
    && rules.hash(plot.header) == id
    && WellShaped(plot) && SeriesRight(plot) && Bounded(plot)
    && id <= plot.header.target
    && if id == rules.genesisID then GenesisPlot(plot)
       else Accepted(rules, PathTo(rules, plots, plot.header.previous), plot)
  }

  /** Every stored plot hangs in the tree under its own hash and has passed acceptance. */
  ghost predicate StoreOk(rules: Rules, plots: Plots) {
    && TreeOk(plots, rules.genesisID)
    && forall id :: id in plots ==> PlotOk(rules, plots, id)
  }

  /** The main thread. */
  ghost function MainThread(rules: Rules, plots: Plots, db: Database): Thread {
    if db.tip.None? then [] else PathTo(rules, plots, db.tip.value.id)
  }

  /** Only stored plots are known, and only plots whose parent is known are stored. */
  ghost predicate BranchesOk(rules: Rules, plots: Plots, db: Database) {
    && (forall id :: Known(db, id) ==> id in plots)
    && (forall id :: id in plots && id != rules.genesisID ==> Known(db, plots[id].plot.header.previous))
    && (forall id :: id in db.branches ==> db.branches[id] == MAIN || db.branches[id] == SIDE)
  }

  /** The ledger reflects the path to its tip, and that path is a valid thread. */
  ghost predicate LedgerOk(rules: Rules, plots: Plots, db: Database) {
    && StoreOk(rules, plots)
    && BranchesOk(rules, plots, db)
    && db.tip.Some? && db.tip.value.id in plots
    && Reflects(rules, db, MainThread(rules, plots, db))
    && ValidThread(rules, MainThread(rules, plots, db))
  }

  /** A stored plot that is neither on the main thread nor on a side branch has a thread that cannot be replayed. */
  ghost predicate UnknownIsInvalid(rules: Rules, plots: Plots, db: Database) {
    forall id :: id in plots && !Known(db, id) ==> !ValidThread(rules, PathTo(rules, plots, id))
  }

  /** The tip beats every other plot that is on the main thread or on a side branch. */
  ghost predicate TipIsBest(plots: Plots, db: Database) {
    && db.tip.Some? && db.tip.value.id in plots
    && forall id :: Known(db, id) && id in plots && id != db.tip.value.id ==> Beats(plots, db.tip.value.id, id)
  }

  // ---------- consequences ----------

  /** A stored path is a thread: shape, series and links are right at every height. */
  lemma PathIsThread(rules: Rules, plots: Plots, id: PlotID)
    requires StoreOk(rules, plots) && id in plots
    ensures IsThread(PathTo(rules, plots, id))
  {
    var path := PathTo(rules, plots, id);
    PathLength(plots, rules.genesisID, id);
    forall h | 0 <= h < |path| ensures LinkOk(path, h) {
      PathPrefix(plots, rules.genesisID, id, h);
      assert PlotOk(rules, plots, path[h].id);
    }
  }

  lemma PathEnd(rules: Rules, plots: Plots, id: PlotID)
    requires StoreOk(rules, plots) && id in plots
    ensures var path := PathTo(rules, plots, id);
      |path| == plots[id].plot.header.height + 1 >= 1 && path[|path| - 1].id == id
    ensures |PathTo(rules, plots, id)| == 1 ==> id == rules.genesisID
    ensures id == rules.genesisID ==> |PathTo(rules, plots, id)| == 1
  {
    PathLength(plots, rules.genesisID, id);
    assert NodeOk(plots, rules.genesisID, id);
  }

  /** Work strictly grows from parent to child, so a plot beats each of its ancestors. */
  lemma ChildWorkGrows(rules: Rules, plots: Plots, id: PlotID)
    requires StoreOk(rules, plots) && id in plots && id != rules.genesisID
    ensures plots[id].plot.header.previous in plots
    ensures plots[id].plot.header.threadWork > plots[plots[id].plot.header.previous].plot.header.threadWork
  {
    assert NodeOk(plots, rules.genesisID, id) && PlotOk(rules, plots, id);
    PathLength(plots, rules.genesisID, plots[id].plot.header.previous);
    WorkIsPositive(plots[id].plot.header.target);
  }

  /** A stored plot's work is an ancestor's and what the plots between them stand for. */
  lemma StoredWorkAddsUp(rules: Rules, plots: Plots, id: PlotID, h: nat)
    requires StoreOk(rules, plots) && id in plots && h <= plots[id].plot.header.height
    ensures var headers, top := HeadersOf(PathTo(rules, plots, id)), plots[id].plot.header.height;
      && |headers| == top + 1
      && plots[id].plot.header.threadWork == headers[h].threadWork + WorkBetween(headers, h, top)
  {
    hide BitcoinTarget, ThreadWork, MedianTimestamp, WellShaped, SeriesRight, Bounded, TreeOk, Path, WorkBetween;
    var path, headers := PathTo(rules, plots, id), HeadersOf(PathTo(rules, plots, id));
    PathLength(plots, rules.genesisID, id);
    forall i | 1 <= i < |headers| ensures Worked(headers, i) {
      PathPrefix(plots, rules.genesisID, id, i);
      PathPrefix(plots, rules.genesisID, id, i - 1);
      assert PlotOk(rules, plots, path[i].id);
    }
    WorkAddsUp(headers, h, |headers| - 1);
  }

  /** A plot beats each of its ancestors. */
  lemma DescendantBeats(rules: Rules, plots: Plots, id: PlotID, h: nat)
    requires StoreOk(rules, plots) && id in plots && h < plots[id].plot.header.height
    ensures |PathTo(rules, plots, id)| == plots[id].plot.header.height + 1
    ensures PathTo(rules, plots, id)[h].id in plots
    ensures Beats(plots, id, PathTo(rules, plots, id)[h].id)
  {
    forall i | i in plots && i != rules.genesisID
      ensures plots[i].plot.header.previous in plots
      ensures plots[i].plot.header.threadWork > plots[plots[i].plot.header.previous].plot.header.threadWork
    {
      ChildWorkGrows(rules, plots, i);
    }
    AncestorWorkIsLess(plots, rules.genesisID, id, h);
    PathPrefix(plots, rules.genesisID, id, h);
  }

  lemma HeadersOfStep(chain: Thread, e: Entry)
    ensures HeadersOf(chain + [e]) == HeadersOf(chain) + [e.plot.header]
  {
  }

  /** The median timestamp never falls from parent to child on any stored branch. */
  lemma MedianRises(rules: Rules, plots: Plots, id: PlotID)
    requires StoreOk(rules, plots) && id in plots && id != rules.genesisID
    ensures var parent := plots[id].plot.header.previous;
      && parent in plots && HeadersOf(PathTo(rules, plots, parent)) != [] && HeadersOf(PathTo(rules, plots, id)) != []
      && MedianTimestamp(HeadersOf(PathTo(rules, plots, parent)))
         <= MedianTimestamp(HeadersOf(PathTo(rules, plots, id)))
  {
    assert PlotOk(rules, plots, id);
    PathStep(plots, rules.genesisID, id);
    var parents := PathTo(rules, plots, plots[id].plot.header.previous);
    HeadersOfStep(parents, Entry(id, plots[id].plot));
    MedianNeverFalls(HeadersOf(parents), plots[id].plot.header);
  }

  /** So no plot's median is below that of any of its ancestors. */
  lemma {:induction false} MediansAscend(rules: Rules, plots: Plots, id: PlotID, h: nat)
    requires StoreOk(rules, plots) && id in plots && h <= plots[id].plot.header.height
    ensures var path := PathTo(rules, plots, id);
      && |path| == plots[id].plot.header.height + 1
      && HeadersOf(path[..h + 1]) != [] && HeadersOf(path) != []
      && MedianTimestamp(HeadersOf(path[..h + 1])) <= MedianTimestamp(HeadersOf(path))
    decreases plots[id].plot.header.height
  {
    hide MedianTimestamp, PlotOk, TreeOk;
    PathEnd(rules, plots, id);
    var path := PathTo(rules, plots, id);
    if h == plots[id].plot.header.height {
      assert path[..h + 1] == path;
    } else {
      MedianRises(rules, plots, id);
      PathStep(plots, rules.genesisID, id);
      var parent := plots[id].plot.header.previous;
      MediansAscend(rules, plots, parent, h);
      assert path[..h + 1] == PathTo(rules, plots, parent)[..h + 1];
    }
  }

  /** Up to the change of rule, a stored path's headers follow the thread's own target rule. */
  lemma StoredWorkThread(rules: Rules, plots: Plots, id: PlotID)
    requires StoreOk(rules, plots) && id in plots
    requires plots[id].plot.header.height <= BITCOIN_CASH_RETARGET_ALGORITHM_HEIGHT
    ensures WorkThread(HeadersOf(PathTo(rules, plots, id)))
  {
    hide BitcoinTarget, WindowTarget, ThreadWork, MedianTimestamp, WellShaped, SeriesRight, Bounded, TreeOk, Path;
    var path, headers := PathTo(rules, plots, id), HeadersOf(PathTo(rules, plots, id));
    PathEnd(rules, plots, id);
    PathPrefix(plots, rules.genesisID, id, 0);
    PathLength(plots, rules.genesisID, id);
    assert PlotOk(rules, plots, rules.genesisID);
    forall i | 1 <= i < |headers| ensures Earned(headers, i) {
      PathPrefix(plots, rules.genesisID, id, i);
      PathPrefix(plots, rules.genesisID, id, i - 1);
      assert PlotOk(rules, plots, path[i].id);
      assert headers[..i] == HeadersOf(path[..i]);
    }
  }

  /** So every stored plot up to there has its target between the floor of the last interval and the initial target. */
  lemma StoredTargetsInRange(rules: Rules, plots: Plots, id: PlotID)
    requires StoreOk(rules, plots) && id in plots
    requires plots[id].plot.header.height <= BITCOIN_CASH_RETARGET_ALGORITHM_HEIGHT
    ensures Floor(14) <= plots[id].plot.header.target <= INITIAL_TARGET
  {
    hide StoreOk, WorkThread, Path;
    var headers := HeadersOf(PathTo(rules, plots, id));
    StoredWorkThread(rules, plots, id);
    PathEnd(rules, plots, id);
    StoreHasTree(rules, plots);
    PathLength(plots, rules.genesisID, id);
    TargetsStayInRange(headers, |headers|);
    var h := plots[id].plot.header.height;
    assert headers[h].target == plots[id].plot.header.target;
    FloorFalls(h / RETARGET_INTERVAL, 14);
  }

  /** Every stored plot is stored under its header's hash and has the proof of work it declares. */
  lemma StoredHasWork(rules: Rules, plots: Plots)
    requires StoreOk(rules, plots)
    ensures forall id :: id in plots ==>
              rules.hash(plots[id].plot.header) == id && id <= plots[id].plot.header.target
  {
    hide GenesisPlot, Accepted, WellShaped, SeriesRight, Bounded, TreeOk;
    forall id | id in plots ensures rules.hash(plots[id].plot.header) == id <= plots[id].plot.header.target {
      assert PlotOk(rules, plots, id);
    }
  }

  lemma StoreHasTree(rules: Rules, plots: Plots)
    requires StoreOk(rules, plots)
    ensures TreeOk(plots, rules.genesisID)
  {
  }

  /** Every ancestor of a known plot is known. */
  lemma {:induction false} AncestorsKnown(rules: Rules, plots: Plots, db: Database, id: PlotID, h: nat)
    requires TreeOk(plots, rules.genesisID) && BranchesOk(rules, plots, db) && id in plots
    requires h < plots[id].plot.header.height
    ensures |PathTo(rules, plots, id)| == plots[id].plot.header.height + 1
    ensures Known(db, PathTo(rules, plots, id)[h].id)
    decreases plots[id].plot.header.height
  {
    PathLength(plots, rules.genesisID, id);
    assert NodeOk(plots, rules.genesisID, id);
    PathStep(plots, rules.genesisID, id);
    var parent := plots[id].plot.header.previous;
    if h < plots[parent].plot.header.height {
      AncestorsKnown(rules, plots, db, parent, h);
    } else {
      PathLength(plots, rules.genesisID, parent);
    }
  }

  /** Each entry is stored, at its own height, and names the entry below it as its parent. */
  ghost predicate Descends(plots: Plots, path: Thread) {
    forall h :: 0 <= h < |path| ==> StepOk(plots, path, h)
  }

  ghost predicate StepOk(plots: Plots, path: Thread, h: nat)
    requires h < |path|
  {
    var e := path[h];
    && e.id in plots && e.plot == plots[e.id].plot && e.plot.header.height == h
    && (h > 0 ==> e.plot.header.previous == path[h - 1].id)
  }

  lemma PathDescends(rules: Rules, plots: Plots, end: PlotID)
    requires TreeOk(plots, rules.genesisID) && end in plots
    ensures Descends(plots, PathTo(rules, plots, end))
    ensures |PathTo(rules, plots, end)| == plots[end].plot.header.height + 1
    ensures PathTo(rules, plots, end)[plots[end].plot.header.height].id == end
  {
    PathLength(plots, rules.genesisID, end);
    forall h | 0 <= h < |PathTo(rules, plots, end)| ensures StepOk(plots, PathTo(rules, plots, end), h) {
      PathPrefix(plots, rules.genesisID, end, h);
    }
  }

  // ---------- storing an accepted plot ----------

  /** Nobody builds on the ID: it is new, or stored and never connected. */
  ghost predicate Leaf(plots: Plots, id: PlotID) {
    forall i :: i in plots ==> plots[i].plot.header.previous != id
  }

  ghost predicate MayStore(rules: Rules, plots: Plots, id: PlotID, plot: Plot) {
    var parent := plot.header.previous;
    && rules.hash(plot.header) == id && id != rules.genesisID
    && parent in plots && parent != id
    && plot.header.height == plots[parent].plot.header.height + 1
    && WellShaped(plot) && SeriesRight(plot) && Bounded(plot)
    && id <= plot.header.target
    && Accepted(rules, PathTo(rules, plots, parent), plot)
  }

  lemma TreeAdds(rules: Rules, plots: Plots, id: PlotID, stored: Stored)
    requires StoreOk(rules, plots) && Leaf(plots, id) && MayStore(rules, plots, id, stored.plot)
    ensures TreeOk(plots[id := stored], rules.genesisID)
  {
    hide PlotOk, Accepted, WellShaped, SeriesRight;
    var plots' := plots[id := stored];
    forall i | i in plots' ensures NodeOk(plots', rules.genesisID, i) {
      var parent := stored.plot.header.previous;
      assert NodeOk(plots, rules.genesisID, parent);
      if i != id {
        assert NodeOk(plots, rules.genesisID, i);
      }
    }
  }

  lemma StoreAdds(rules: Rules, plots: Plots, id: PlotID, stored: Stored)
    requires StoreOk(rules, plots) && Leaf(plots, id) && MayStore(rules, plots, id, stored.plot)
    ensures StoreOk(rules, plots[id := stored])
    ensures forall i :: i in plots && i != id ==> PathTo(rules, plots[id := stored], i) == PathTo(rules, plots, i)
  {
    hide WellShaped, SeriesRight, GenesisPlot, Accepted, Path;
    var plots' := plots[id := stored];
    TreeAdds(rules, plots, id, stored);
    forall i | i in plots && i != id ensures PathTo(rules, plots', i) == PathTo(rules, plots, i) {
      PathFrame(plots, plots', rules.genesisID, id, i);
    }
    forall i | i in plots' ensures PlotOk(rules, plots', i) {
      assert NodeOk(plots', rules.genesisID, i);
      if i != id {
        assert PlotOk(rules, plots, i) && NodeOk(plots, rules.genesisID, i);
      }
    }
  }

  // ---------- forks ----------

  /** The length of the longest common prefix. */
  function Common(a: Thread, b: Thread): nat {
    if a == [] || b == [] || a[0] != b[0] then 0 else 1 + Common(a[1..], b[1..])
  }

  lemma {:induction false} CommonMeans(a: Thread, b: Thread)
    ensures var c := Common(a, b);
      && c <= |a| && c <= |b| && a[..c] == b[..c]
      && (c < |a| && c < |b| ==> a[c] != b[c])
  {
    if a != [] && b != [] && a[0] == b[0] {
      CommonMeans(a[1..], b[1..]);
      var c := Common(a[1..], b[1..]);
      assert a[..c + 1] == [a[0]] + a[1..][..c];
      assert b[..c + 1] == [b[0]] + b[1..][..c];
    }
  }

  lemma {:induction false} CommonIs(a: Thread, b: Thread, c: nat)
    requires c <= |a| && c <= |b| && a[..c] == b[..c]
    requires c < |a| && c < |b| ==> a[c] != b[c]
    ensures Common(a, b) == c
  {
    if c > 0 {
      assert a[0] == a[..c][0] == b[..c][0] == b[0];
      assert a[1..][..c - 1] == a[..c][1..];
      assert b[1..][..c - 1] == b[..c][1..];
      CommonIs(a[1..], b[1..], c - 1);
    }
  }

  /** Two paths share genesis. */
  lemma PathsShareGenesis(rules: Rules, plots: Plots, a: PlotID, b: PlotID)
    requires TreeOk(plots, rules.genesisID) && a in plots && b in plots
    ensures Common(PathTo(rules, plots, a), PathTo(rules, plots, b)) >= 1
  {
    PathLength(plots, rules.genesisID, a);
    PathLength(plots, rules.genesisID, b);
    PathPrefix(plots, rules.genesisID, a, 0);
    PathPrefix(plots, rules.genesisID, b, 0);
  }

  lemma SamePrefix(a: Thread, b: Thread, n: nat, i: nat)
    requires i < n <= |a| && n <= |b| && a[..n] == b[..n]
    ensures a[i] == b[i]
  {
    assert a[..n][i] == b[..n][i];
  }

  /** Past the fork the two paths share no plot. */
  lemma BeyondFork(rules: Rules, plots: Plots, a: PlotID, b: PlotID, x: nat)
    requires TreeOk(plots, rules.genesisID) && a in plots && b in plots
    requires Common(PathTo(rules, plots, a), PathTo(rules, plots, b)) <= x < |PathTo(rules, plots, b)|
    ensures !OnThread(PathTo(rules, plots, a), PathTo(rules, plots, b)[x].id)
  {
    var A, B := PathTo(rules, plots, a), PathTo(rules, plots, b);
    PathLength(plots, rules.genesisID, a);
    PathLength(plots, rules.genesisID, b);
    PathPrefix(plots, rules.genesisID, b, x);
    CommonMeans(A, B);
    if OnThread(A, B[x].id) {
      var y :| 0 <= y < |A| && A[y].id == B[x].id;
      PathPrefix(plots, rules.genesisID, a, y);
      assert A[..x + 1] == B[..x + 1];
      SamePrefix(A, B, x + 1, Common(A, B));
      assert false;
    }
  }

  // ---------- branch marks ----------

  function IdsOn(chain: Thread): set<PlotID> {
    set i | 0 <= i < |chain| :: chain[i].id
  }

  function Marked(branches: map<PlotID, BranchType>, chain: Thread, branch: BranchType): map<PlotID, BranchType> {
    branches + map id | id in IdsOn(chain) :: branch
  }

  /** The marks after disconnecting `from` and connecting `to`. */
  function Reorganised(branches: map<PlotID, BranchType>, from: Thread, to: Thread): map<PlotID, BranchType> {
    Marked(Marked(branches, from, SIDE), to, MAIN)
  }

  lemma IdsOnSplit(chain: Thread, e: Entry)
    ensures IdsOn([e] + chain) == {e.id} + IdsOn(chain)
    ensures IdsOn(chain + [e]) == IdsOn(chain) + {e.id}
  {
    assert ([e] + chain)[0] == e && (chain + [e])[|chain|] == e;
    forall i | 0 <= i < |chain| ensures chain[i].id in IdsOn([e] + chain) && chain[i].id in IdsOn(chain + [e]) {
      assert ([e] + chain)[i + 1] == chain[i] && (chain + [e])[i] == chain[i];
    }
    forall id | id in IdsOn([e] + chain) ensures id in {e.id} + IdsOn(chain) {
      var i :| 0 <= i < |chain| + 1 && ([e] + chain)[i].id == id;
      if i > 0 {
        assert chain[i - 1].id == id;
      }
    }
  }

  lemma MarkOne(branches: map<PlotID, BranchType>, chain: Thread, e: Entry, branch: BranchType)
    ensures Marked(branches, chain, branch)[e.id := branch] == Marked(branches, [e] + chain, branch)
    ensures Marked(branches, chain, branch)[e.id := branch] == Marked(branches, chain + [e], branch)
  {
    hide IdsOn;
    IdsOnSplit(chain, e);
  }

  /** Going over to a branch of side plots and back again restores every mark. */
  lemma MarksRestored(branches: map<PlotID, BranchType>, main: Thread, side: Thread)
    requires forall i :: 0 <= i < |main| ==> main[i].id in branches && branches[main[i].id] == MAIN
    requires forall i :: 0 <= i < |side| ==> side[i].id in branches && branches[side[i].id] == SIDE
    ensures Marked(Marked(Marked(Marked(branches, main, SIDE), side, MAIN), side, SIDE), main, MAIN) == branches
  {
    var m1 := Marked(branches, main, SIDE);
    var m2 := Marked(m1, side, MAIN);
    var m3 := Marked(m2, side, SIDE);
    var m4 := Marked(m3, main, MAIN);
    MarkedAt(branches, main, SIDE);
    MarkedAt(m1, side, MAIN);
    MarkedAt(m2, side, SIDE);
    MarkedAt(m3, main, MAIN);
    assert forall id :: id in IdsOn(main) ==> id in branches && branches[id] == MAIN;
    assert forall id :: id in IdsOn(side) ==> id in branches && branches[id] == SIDE;
    hide IdsOn, Marked;
    assert forall id :: id in m4 <==> id in branches;
    assert forall id :: id in branches ==> m4[id] == branches[id];
  }

  lemma MarkedAt(branches: map<PlotID, BranchType>, chain: Thread, branch: BranchType)
    ensures forall id :: id in Marked(branches, chain, branch) <==> id in branches || id in IdsOn(chain)
    ensures forall id :: id in Marked(branches, chain, branch) ==>
              Marked(branches, chain, branch)[id] == if id in IdsOn(chain) then branch else branches[id]
  {
  }
}
