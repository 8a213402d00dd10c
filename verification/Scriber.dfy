/** Building the next plot from the queue: the ledger accepts it unless its plotroot is a duplicate. */
module Scriber {
  import opened Plots
  import opened Balances
  import opened LedgerSpec
  import opened LedgerProofs
  import opened LedgerDisk
  import opened QueueSpec
  import opened QueueProofs
  import opened RepresentationQueueMemory
  import opened Tree
  import opened Consensus
  import opened ThreadState
  import opened Checks
  import opened Reorganisation
  import P = Processor

  const MAX_REPRESENTATIONS_TO_INCLUDE_PER_PLOT := INITIAL_MAX_REPRESENTATIONS_PER_PLOT

  /** A plotroot for the given height. */
  ghost predicate NextRoot(root: Representation, height: int) {
    root.IsPlotroot() && root.series == SeriesAt(height)
  }

  /** The head of a queue that is consistent with the thread, behind a plotroot, is a plot in shape and in series. */
  lemma NextPlotShape(rules: Rules, chain: Thread, queue: seq<Representation>, n: nat, plot: Plot, root: Representation)
    requires QueueOk(rules, chain, queue) && n <= |queue| && NextRoot(root, |chain|)
    requires plot.reps == [root] + queue[..n] && plot.header.height == |chain|
    requires forall r :: r in queue ==> IncludableAt(r, |chain|)
    ensures WellShaped(plot) && SeriesRight(plot)
  {
    var reps := plot.reps;
    forall i | 1 <= i < |reps| ensures reps[i] in queue && reps[i] == queue[i - 1] {
    }
    forall i, j | 0 <= i < j < |reps| ensures reps[i].Id() != reps[j].Id() {
      if i == 0 {
        IdTells(reps[0], reps[j]);
      }
    }
  }

  /** The ledger finds everything it needs for such a plot, and applies the maturing plotroot, then the queue's head. */
  lemma NextPlotEffects(rules: Rules, db: Database, plots: Plots, chain: Thread, queue: seq<Representation>, n: nat,
                        e: Entry, root: Representation)
    requires Stands(rules, plots, db, queue, chain) && IsThread(chain + [e])
    requires n <= |queue| && NextRoot(root, |chain|) && e.plot.reps == [root] + queue[..n]
    ensures e.plot.header.height == |chain|
    ensures !LacksMaturing(db, plots, e.plot) && !LacksOld(rules, db, plots, |chain|)
    ensures var maturing := Maturing(db, plots, |chain|);
      Effects(db, plots, e.plot) == (if maturing.Some? then [maturing.value] else []) + queue[..n]
  {
    LookupsReflect(rules, db, plots, chain, chain + [e], |chain|);
    assert LinkOk(chain + [e], |chain|);
    var rest := queue[..n];
    assert forall r :: r in rest ==> r in queue;
    NextEffects(root, rest, Maturing(db, plots, |chain|));
  }

  /** From a funded queue such effects are funded: the credit that matures first can only help. */
  lemma NextPlotFunded(rules: Rules, db: Database, plots: Plots, chain: Thread, queue: seq<Representation>, n: nat)
    requires Reflects(rules, db, chain) && Holds(plots, chain) && n <= |queue| && Funded(db.imbalances, queue)
    ensures var maturing := Maturing(db, plots, |chain|);
      Funded(db.imbalances, (if maturing.Some? then [maturing.value] else []) + queue[..n])
  {
    FundedPrefix(db.imbalances, queue, n);
    var maturing := Maturing(db, plots, |chain|);
    if maturing.Some? {
      MaturingIsPlotroot(rules, db, plots, chain);
      CreditKeepsFunded(db.imbalances, maturing.value, queue[..n]);
    } else {
      assert [] + queue[..n] == queue[..n];
    }
  }

  /** The guard lets the plotroot that matures next through. */
  predicate MaturesUnguarded(rules: Rules, db: Database, plots: Plots, height: int) {
    Maturing(db, plots, height).Some? ==> !rules.guard(Maturing(db, plots, height).value)
  }

  lemma NextPlotUnguarded(rules: Rules, db: Database, plots: Plots, chain: Thread, queue: seq<Representation>, n: nat)
    requires QueueOk(rules, chain, queue) && n <= |queue|
    ensures var maturing := Maturing(db, plots, |chain|);
      Unguarded(rules, (if maturing.Some? then [maturing.value] else []) + queue[..n])
      <==> MaturesUnguarded(rules, db, plots, |chain|)
  {
    var maturing := Maturing(db, plots, |chain|);
    var first := if maturing.Some? then [maturing.value] else [];
    forall i | 0 <= i < n ensures !rules.guard(queue[i]) {
      assert queue[i] in queue;
    }
    if Unguarded(rules, first + queue[..n]) && maturing.Some? {
      assert (first + queue[..n])[0] == maturing.value;
    }
  }

  lemma MaturingIsPlotroot(rules: Rules, db: Database, plots: Plots, chain: Thread)
    requires Reflects(rules, db, chain) && Holds(plots, chain)
    ensures Maturing(db, plots, |chain|).Some? ==> Maturing(db, plots, |chain|).value.IsPlotroot()
  {
    PlotAtReflects(rules, db, plots, chain, |chain| - PLOTROOT_MATURITY);
    if |chain| >= PLOTROOT_MATURITY {
      assert LinkOk(chain, |chain| - PLOTROOT_MATURITY);
    }
  }

  /**
   * A plot built from the queue on the current tip connects exactly when its plotroot's ID (time, nonce,
   * recipient, memo and series) is not indexed, the guard lets the maturing plotroot through, and the part of
   * the queue it takes is funded behind that plotroot.
   */
  lemma NextPlotConnects(rules: Rules, db: Database, plots: Plots, chain: Thread, queue: seq<Representation>, n: nat,
                         e: Entry, root: Representation)
    requires Stands(rules, plots, db, queue, chain) && chain != [] && n <= |queue|
    requires forall r :: r in queue ==> IncludableAt(r, |chain|)
    requires NextRoot(root, |chain|) && e.plot.reps == [root] + queue[..n]
    requires e.plot.header.height == |chain| && e.plot.header.previous == chain[|chain| - 1].id
    ensures CanConnect(rules, db, plots, e.plot) <==>
              && root.Id() !in db.repIndex && MaturesUnguarded(rules, db, plots, |chain|)
              && Funded(db.imbalances, Effects(db, plots, e.plot))
    ensures Funded(db.imbalances, queue) ==> Funded(db.imbalances, Effects(db, plots, e.plot))
  {
    hide *;
    StandsMeans(rules, plots, db, queue, chain);
    NextPlotShape(rules, chain, queue, n, e.plot, root);
    NextFits(rules, db, chain, e);
    NextPlotEffects(rules, db, plots, chain, queue, n, e, root);
    NextPlotUnguarded(rules, db, plots, chain, queue, n);
    QueueNotIndexed(rules, db, chain, queue);
    NextPlotNotIndexed(db, queue, n, root);
    CanConnectMeans(rules, db, plots, e.plot);
    if Funded(db.imbalances, queue) {
      NextPlotFunded(rules, db, plots, chain, queue, n);
    }
  }

  lemma NextFits(rules: Rules, db: Database, chain: Thread, e: Entry)
    requires Reflects(rules, db, chain) && chain != [] && WellShaped(e.plot) && SeriesRight(e.plot)
    requires e.plot.header.height == |chain| && e.plot.header.previous == chain[|chain| - 1].id
    ensures IsThread(chain + [e]) && db.tip.Some? && db.tip.value.id == e.plot.header.previous
  {
    ThreadExtends(chain, e);
    hide WellShaped, SeriesRight;
  }

  lemma NextPlotNotIndexed(db: Database, queue: seq<Representation>, n: nat, root: Representation)
    requires n <= |queue| && forall i :: 0 <= i < |queue| ==> queue[i].Id() !in db.repIndex
    ensures NoneIndexed(db, [root] + queue[..n]) <==> root.Id() !in db.repIndex
  {
    var reps := [root] + queue[..n];
    assert reps[0] == root;
    forall i | 1 <= i < |reps| ensures reps[i].Id() !in db.repIndex {
      assert reps[i] == queue[i - 1];
    }
  }

  lemma CanConnectMeans(rules: Rules, db: Database, plots: Plots, plot: Plot)
    ensures CanConnect(rules, db, plots, plot) <==>
              && (db.tip.Some? ==> db.tip.value.id == plot.header.previous)
              && NoneIndexed(db, plot.reps)
              && !LacksMaturing(db, plots, plot)
              && Funded(db.imbalances, Effects(db, plots, plot))
              && Unguarded(rules, Effects(db, plots, plot))
              && !LacksOld(rules, db, plots, plot.header.height)
  {
  }

  /** The exception occurs: right above genesis, the genesis plotroot's own content serves again. */
  lemma RootCanCollide(rules: Rules, id: PlotID, genesis: Plot, next: Plot)
    requires GenesisPlot(genesis) && next.reps == [genesis.reps[0]]
    ensures var db := Connected(rules, EmptyDatabase, map[], id, genesis);
      NextRoot(genesis.reps[0], 1) && !CanConnect(rules, db, map[], next)
  {
    var reps := genesis.reps;
    assert SeriesRight(genesis) && CheckRepresentationSeries(reps[0], 0);
    assert PlotIndex(reps, 0) == PlotIndex(reps[..0], 0)[reps[0].Id() := Position(0, 0)];
    assert reps[0].Id() in Connected(rules, EmptyDatabase, map[], id, genesis).repIndex;
    assert next.reps[0] == reps[0];
  }

  /** What is not on the thread is not in its index. */
  lemma QueueNotIndexed(rules: Rules, db: Database, chain: Thread, queue: seq<Representation>)
    requires Reflects(rules, db, chain) && Unconfirmed(chain, queue)
    ensures forall i :: 0 <= i < |queue| ==> queue[i].Id() !in db.repIndex
  {
    forall i | 0 <= i < |queue| ensures queue[i].Id() !in db.repIndex {
      assert queue[i] in queue;
    }
  }

  /** Everything acceptance asks of such a plot holds, but for the time, which the scriber sets later. */
  lemma NextPlotAdmissible(rules: Rules, db: Database, plots: Plots, chain: Thread, queue: seq<Representation>, n: nat,
                           plot: Plot, root: Representation)
    requires Stands(rules, plots, db, queue, chain) && chain != []
    requires n <= |queue| && forall r :: r in queue ==> IncludableAt(r, |chain|)
    requires NextRoot(root, |chain|) && plot.reps == [root] + queue[..n]
    requires var header := plot.header;
      && header.previous in plots && PathTo(rules, plots, header.previous) == chain
      && plots[header.previous].plot.header.height == |chain| - 1 && header.height == |chain|
      && ExpectedTarget(rules, plots, db, header.previous) == Some(header.target)
      && ThreadWork(header.target, plots[header.previous].plot.header.threadWork) == Some(header.threadWork)
    ensures Admissible(rules, plots, db, plot) <==> plot.header.time > MedianTimestamp(HeadersOf(chain))
  {
    var reps := plot.reps;
    forall i | 0 <= i < |reps| ensures MayInclude(rules, reps[i], |chain|) {
      if i > 0 {
        assert reps[i] == queue[i - 1] && queue[i - 1] in queue;
      }
    }
    AdmissibleMeans(rules, plots, db, plot);
  }

  lemma RepresentationLimit()
    ensures MAX_REPRESENTATIONS_TO_INCLUDE_PER_PLOT == 10000
  {
  }

  lemma TargetFits(rules: Rules, plots: Plots, db: Database, prevID: PlotID)
    ensures var target := ExpectedTarget(rules, plots, db, prevID);
      target.Some? ==> target.value < TWO_256
  {
    hide PathTo;
    var headers := HeadersOf(PathTo(rules, plots, prevID));
    if headers != [] {
      BitcoinTargetFits(headers);
    }
  }

  lemma BitcoinTargetFits(headers: seq<PlotHeader>)
    requires headers != []
    ensures BitcoinTarget(headers) < TWO_256
  {
  }

  lemma WorkFits(target: nat, threadWork: nat)
    ensures var work := ThreadWork(target, threadWork);
      work.Some? ==> work.value < TWO_256
  {
  }

  /** The tip's height and its thread agree. */
  lemma TipHeights(rules: Rules, plots: Plots, db: Database, chain: Thread)
    requires Reflects(rules, db, chain) && StoreOk(rules, plots)
    requires db.tip.Some? && db.tip.value.id in plots && chain == PathTo(rules, plots, db.tip.value.id)
    ensures chain != [] && chain[|chain| - 1].id == db.tip.value.id
    ensures db.tip.value.height == |chain| - 1 == plots[db.tip.value.id].plot.header.height
  {
    PathEnd(rules, plots, db.tip.value.id);
    hide StoreOk;
  }

  /** The header that the tip demands of the next plot, but for its time and nonce. */
  ghost predicate Extends(rules: Rules, plots: Plots, db: Database, plot: Plot) {
    var header := plot.header;
    && db.tip.Some?
    && header.previous == db.tip.value.id && header.previous in plots
    && header.height == db.tip.value.height + 1
    && ExpectedTarget(rules, plots, db, header.previous) == Some(header.target)
    && ThreadWork(header.target, plots[header.previous].plot.header.threadWork) == Some(header.threadWork)
    && header.hashListRoot == Ids(plot.reps) && header.representationCount == |plot.reps|
  }

  lemma ExtendsMeans(rules: Rules, plots: Plots, db: Database, plot: Plot)
    ensures Extends(rules, plots, db, plot) <==>
      var header := plot.header;
      && db.tip.Some?
      && header.previous == db.tip.value.id && header.previous in plots
      && header.height == db.tip.value.height + 1
      && ExpectedTarget(rules, plots, db, header.previous) == Some(header.target)
      && ThreadWork(header.target, plots[header.previous].plot.header.threadWork) == Some(header.threadWork)
      && header.hashListRoot == Ids(plot.reps) && header.representationCount == |plot.reps|
  {
  }

  /** What the scriber promises of its plot, on the ledger and queue it was built from. */
  ghost predicate Scribed(rules: Rules, plots: Plots, db: Database, queue: seq<Representation>, pubKey: PubKey,
                          plot: Plot) {
    var main := MainThread(rules, plots, db);
    && main != [] && 1 <= |plot.reps| <= MAX_REPRESENTATIONS_TO_INCLUDE_PER_PLOT
    && NextRoot(plot.reps[0], |main|) && plot.reps[0].forKey == pubKey
    && plot.reps[1..] <= queue
    && (|plot.reps| < MAX_REPRESENTATIONS_TO_INCLUDE_PER_PLOT ==> plot.reps[1..] == queue)
    && Extends(rules, plots, db, plot)
    && (CanConnect(rules, db, plots, plot) <==>
          && plot.reps[0].Id() !in db.repIndex && MaturesUnguarded(rules, db, plots, |main|)
          && Funded(db.imbalances, Effects(db, plots, plot)))
    && (Funded(db.imbalances, queue) ==> Funded(db.imbalances, Effects(db, plots, plot)))
    && (Admissible(rules, plots, db, plot) <==> plot.header.time > MedianTimestamp(HeadersOf(main)))
  }

  lemma PlotIsScribed(rules: Rules, plots: Plots, db: Database, queue: seq<Representation>, pubKey: PubKey, plot: Plot,
                      id: PlotID, root: Representation, n: nat)
    requires LedgerOk(rules, plots, db) && Stands(rules, plots, db, queue, MainThread(rules, plots, db))
    requires db.tip.Some? && forall r :: r in queue ==> IncludableAt(r, db.tip.value.height + 1)
    requires n <= |queue| && n < MAX_REPRESENTATIONS_TO_INCLUDE_PER_PLOT
    requires n == |queue| || n == MAX_REPRESENTATIONS_TO_INCLUDE_PER_PLOT - 1
    requires root.IsPlotroot() && root.forKey == pubKey && root.series == SeriesAt(db.tip.value.height + 1)
    requires plot.reps == [root] + queue[..n]
    requires Extends(rules, plots, db, plot)
    ensures Scribed(rules, plots, db, queue, pubKey, plot)
  {
    hide *;
    RepresentationLimit();
    var chain := MainThread(rules, plots, db);
    LedgerFacts(rules, plots, db);
    StandsMeans(rules, plots, db, queue, chain);
    TipHeights(rules, plots, db, chain);
    NextRootMeans(root, |chain|);
    ExtendsMeans(rules, plots, db, plot);
    assert plot.reps[1..] == queue[..n];
    NextPlotConnects(rules, db, plots, chain, queue, n, Entry(id, plot), root);
    NextPlotAdmissible(rules, db, plots, chain, queue, n, plot, root);
    ScribedFromParts(rules, plots, db, queue, pubKey, plot);
  }

  lemma StandsMeans(rules: Rules, plots: Plots, db: Database, queue: seq<Representation>, chain: Thread)
    requires Stands(rules, plots, db, queue, chain)
    ensures Reflects(rules, db, chain) && Holds(plots, chain)
    ensures QueueOk(rules, chain, queue) && Unconfirmed(chain, queue)
  {
  }

  lemma NextRootMeans(root: Representation, height: int)
    ensures NextRoot(root, height) <==> root.IsPlotroot() && root.series == SeriesAt(height)
  {
  }

  lemma ScribedFromParts(rules: Rules, plots: Plots, db: Database, queue: seq<Representation>, pubKey: PubKey,
                         plot: Plot)
    requires var main := MainThread(rules, plots, db);
      && main != [] && 1 <= |plot.reps| <= MAX_REPRESENTATIONS_TO_INCLUDE_PER_PLOT
      && NextRoot(plot.reps[0], |main|) && plot.reps[0].forKey == pubKey
      && plot.reps[1..] <= queue
      && (|plot.reps| < MAX_REPRESENTATIONS_TO_INCLUDE_PER_PLOT ==> plot.reps[1..] == queue)
      && Extends(rules, plots, db, plot)
      && (CanConnect(rules, db, plots, plot) <==>
            && plot.reps[0].Id() !in db.repIndex && MaturesUnguarded(rules, db, plots, |main|)
            && Funded(db.imbalances, Effects(db, plots, plot)))
      && (Funded(db.imbalances, queue) ==> Funded(db.imbalances, Effects(db, plots, plot)))
      && (Admissible(rules, plots, db, plot) <==> plot.header.time > MedianTimestamp(HeadersOf(main)))
    ensures Scribed(rules, plots, db, queue, pubKey, plot)
  {
  }

  /** Builds a plot on the processor's tip; None when computing its target or work panics. */
  method CreateNextPlot(p: P.Processor, pubKey: PubKey, memo: seq<byte>, now: int, txNonce: int, nonce: int)
    returns (plot: Option<Plot>)
    requires p.Ready()
    ensures plot.Some? ==>
      Scribed(p.rules, p.plotStore.plots, p.ledger.db, p.txQueue.Contents(), pubKey, plot.value)
    ensures plot.Some? ==>
      && plot.value.header.time == now && plot.value.header.nonce == nonce && plot.value.reps != []
      && plot.value.reps[0] == Representation(now, txNonce, None, pubKey, memo, 0, 0,
                                              SeriesAt(plot.value.header.height), [])
  {
    hide *;
    p.ReadyParts();
    p.SoundParts();
    p.WiredMeans();
    p.SettledParts();
    RepresentationLimit();
    ghost var rules, plots, db := p.rules, p.plotStore.plots, p.ledger.db;
    ghost var chain := MainThread(rules, plots, db);
    ghost var queue := p.txQueue.Contents();
    LedgerFacts(rules, plots, db);
    p.StandsParts(chain);
    TipHeights(rules, plots, db, chain);
    AccountedMeans(rules, db, queue, p.txQueue.imbalanceCache.cache);
    var tipID := p.ledger.db.tip.value.id;
    var tipHeader := p.plotStore.plots[tipID].plot.header;
    var txs := p.txQueue.Get(MAX_REPRESENTATIONS_TO_INCLUDE_PER_PLOT - 1);
    var n := |txs|;
    assert txs == queue[..n];
    var newHeight := tipHeader.height + 1;
    var tx := Representation(now, txNonce, None, pubKey, memo, 0, 0, SeriesAt(newHeight), []);
    assert tx.IsPlotroot() by {
      IsRoot(tx);
    }
    txs := [tx] + txs;
    var target := ComputeTarget(p.rules, p.plotStore, p.ledger, tipID, tipHeader);
    if target.None? {
      return None;
    }
    TargetFits(rules, plots, db, tipID);
    var threadWork := ThreadWork(target.value, tipHeader.threadWork);
    if threadWork.None? {
      return None;
    }
    WorkFits(target.value, tipHeader.threadWork);
    plot := Some(Plot(PlotHeader(tipID, Ids(txs), now, target.value, threadWork.value, nonce, newHeight, |txs|), txs));
    ExtendsMeans(rules, plots, db, plot.value);
    PlotIsScribed(rules, plots, db, queue, pubKey, plot.value, tipID, tx, n);
  }

  lemma IsRoot(tx: Representation)
    ensures tx.IsPlotroot() <==> tx.byKey.None?
  {
  }
}
