/** The scriber's loop: a plot is kept on the tip while it is worked on, solved, and handed to the processor. */
module ScriberLoop {
  import opened Plots
  import opened Balances
  import opened LedgerSpec
  import opened LedgerProofs
  import opened LedgerDisk
  import opened QueueSpec
  import opened QueueProofs
  import opened Tree
  import opened Consensus
  import opened ThreadState
  import opened Checks
  import opened Reorganisation
  import opened Scriber
  import P = Processor

  /** A plot on the tip, from the head of the queue, with the header that the thread demands but for time and nonce. */
  ghost predicate Working(rules: Rules, plots: Plots, db: Database, queue: seq<Representation>, plot: Plot) {
    var main := MainThread(rules, plots, db);
    && main != [] && 1 <= |plot.reps| <= MAX_REPRESENTATIONS_TO_INCLUDE_PER_PLOT
    && NextRoot(plot.reps[0], |main|) && plot.reps[1..] <= queue
    && Extends(rules, plots, db, plot)
  }

  /** What makes a working plot a solution: proof of work, and numbers and plotroot in bounds. */
  predicate Solves(rules: Rules, id: PlotID, plot: Plot, now: int)
    requires plot.reps != []
  {
    var header := plot.header;
    && id <= header.target
    && 0 <= header.time <= MAX_NUMBER && header.time <= now + MAX_FUTURE_SECONDS
    && 0 <= header.nonce <= MAX_NUMBER && header.height <= MAX_NUMBER
    && CheckRepresentation(rules, plot.reps[0])
  }

  /** What the ledger asks of a working plot: see NextPlotConnects. */
  ghost predicate Connectable(rules: Rules, plots: Plots, db: Database, plot: Plot)
    requires plot.reps != []
  {
    && plot.reps[0].Id() !in db.repIndex && MaturesUnguarded(rules, db, plots, plot.header.height)
    && Funded(db.imbalances, Effects(db, plots, plot))
  }

  lemma WorkingParts(rules: Rules, plots: Plots, db: Database, queue: seq<Representation>, plot: Plot)
    requires Working(rules, plots, db, queue, plot) && LedgerOk(rules, plots, db)
    ensures var main, header := MainThread(rules, plots, db), plot.header;
      && main != [] && 1 <= |plot.reps| <= 10000 && |plot.reps| - 1 <= |queue|
      && NextRoot(plot.reps[0], |main|) && plot.reps == [plot.reps[0]] + queue[..|plot.reps| - 1]
      && header.height == |main| && header.previous == main[|main| - 1].id == db.tip.value.id
      && header.previous in plots && PathTo(rules, plots, header.previous) == main
      && plots[header.previous].plot.header.height == |main| - 1
      && ExpectedTarget(rules, plots, db, header.previous) == Some(header.target)
      && ThreadWork(header.target, plots[header.previous].plot.header.threadWork) == Some(header.threadWork)
      && header.hashListRoot == Ids(plot.reps) && header.representationCount == |plot.reps|
  {
    hide *;
    var main, n := MainThread(rules, plots, db), |plot.reps| - 1;
    WorkingMeans(rules, plots, db, queue, plot);
    ExtendsMeans(rules, plots, db, plot);
    LedgerFacts(rules, plots, db);
    TipHeights(rules, plots, db, main);
    assert plot.reps[1..] == queue[..n];
    assert plot.reps == [plot.reps[0]] + plot.reps[1..];
  }

  lemma WorkingMeans(rules: Rules, plots: Plots, db: Database, queue: seq<Representation>, plot: Plot)
    requires Working(rules, plots, db, queue, plot)
    ensures var main := MainThread(rules, plots, db);
      && main != [] && 1 <= |plot.reps| <= 10000
      && NextRoot(plot.reps[0], |main|) && plot.reps[1..] <= queue && Extends(rules, plots, db, plot)
  {
    hide MainThread, Extends, NextRoot;
  }

  /** The shape checks let a working plot through exactly when it is a solution. */
  lemma WorkingIsChecked(rules: Rules, plots: Plots, db: Database, queue: seq<Representation>, id: PlotID, plot: Plot,
                         now: int)
    requires Working(rules, plots, db, queue, plot) && LedgerOk(rules, plots, db)
    requires QueueOk(rules, MainThread(rules, plots, db), queue)
    requires forall r :: r in queue ==> IncludableAt(r, |MainThread(rules, plots, db)|)
    ensures plot.reps != [] && (CheckPlot(rules, id, plot, now) <==> Solves(rules, id, plot, now))
  {
    hide *;
    var main, n := MainThread(rules, plots, db), |plot.reps| - 1;
    WorkingParts(rules, plots, db, queue, plot);
    NextPlotShape(rules, main, queue, n, plot, plot.reps[0]);
    LimitAllows(plot.header.height);
    QueueChecked(rules, main, queue);
    CheckedParts(rules, id, plot, now, queue[..n]);
  }

  lemma LimitAllows(height: nat)
    ensures MaxRepresentations(height) >= 10000
  {
    hide MaxRepresentations;
    LimitDoubles(0);
    LimitNeverFalls(0, height);
  }

  lemma QueueChecked(rules: Rules, chain: Thread, queue: seq<Representation>)
    requires QueueOk(rules, chain, queue)
    ensures forall r :: r in queue ==> CheckRepresentation(rules, r)
  {
  }

  lemma CheckedParts(rules: Rules, id: PlotID, plot: Plot, now: int, rest: seq<Representation>)
    requires WellShaped(plot) && plot.reps == [plot.reps[0]] + rest
    requires 0 <= plot.header.height && |plot.reps| <= 10000 <= MaxRepresentations(plot.header.height)
    requires forall r :: r in rest ==> CheckRepresentation(rules, r)
    requires plot.header.hashListRoot == Ids(plot.reps) && plot.header.representationCount == |plot.reps|
    ensures CheckPlot(rules, id, plot, now) <==> Solves(rules, id, plot, now)
  {
    hide MaxRepresentations, CheckRepresentation;
    forall i | 1 <= i < |plot.reps| ensures CheckRepresentation(rules, plot.reps[i]) {
      assert plot.reps[i] == rest[i - 1] && rest[i - 1] in rest;
    }
  }

  /** Such a plot, once stored, beats the tip, and its thread is valid exactly when the ledger can connect it. */
  lemma WorkingWins(rules: Rules, plots: Plots, db: Database, queue: seq<Representation>, id: PlotID, plot: Plot,
                    now: int)
    requires RulesOk(rules) && LedgerOk(rules, plots, db)
    requires Stands(rules, plots, db, queue, MainThread(rules, plots, db))
    requires forall r :: r in queue ==> IncludableAt(r, |MainThread(rules, plots, db)|)
    requires Working(rules, plots, db, queue, plot) && rules.hash(plot.header) == id && !Known(db, id)
    requires CheckPlot(rules, id, plot, now) && Admissible(rules, plots, db, plot)
    ensures plot.reps != []
    ensures var plots' := plots[id := Stored(plot, now)];
      && BeatsTip(plots', db, id)
      && (ValidThread(rules, PathTo(rules, plots', id)) <==> Connectable(rules, plots, db, plot))
  {
    hide *;
    var main, n, e := MainThread(rules, plots, db), |plot.reps| - 1, Entry(id, plot);
    WorkingParts(rules, plots, db, queue, plot);
    LedgerFacts(rules, plots, db);
    StandsMeans(rules, plots, db, queue, main);
    NextPlotShape(rules, main, queue, n, plot, plot.reps[0]);
    StoredOnTip(rules, plots, db, id, plot, now);
    NextPlotConnects(rules, db, plots, main, queue, n, e, plot.reps[0]);
    ConnectIffValid(rules, db, plots, main, e);
    ConnectableMeans(rules, plots, db, plot);
  }

  lemma ConnectableMeans(rules: Rules, plots: Plots, db: Database, plot: Plot)
    requires plot.reps != []
    ensures Connectable(rules, plots, db, plot) <==>
              && plot.reps[0].Id() !in db.repIndex && MaturesUnguarded(rules, db, plots, plot.header.height)
              && Funded(db.imbalances, Effects(db, plots, plot))
  {
  }

  /** A checked child of the tip, once stored: its path is the main thread and itself, and it beats the tip. */
  lemma StoredOnTip(rules: Rules, plots: Plots, db: Database, id: PlotID, plot: Plot, now: int)
    requires RulesOk(rules) && LedgerOk(rules, plots, db) && rules.hash(plot.header) == id && !Known(db, id)
    requires CheckPlot(rules, id, plot, now) && Admissible(rules, plots, db, plot)
    requires db.tip.Some? && plot.header.previous == db.tip.value.id
    ensures var plots' := plots[id := Stored(plot, now)];
      && PathTo(rules, plots', id) == MainThread(rules, plots, db) + [Entry(id, plot)]
      && BeatsTip(plots', db, id)
  {
    hide *;
    var plots' := plots[id := Stored(plot, now)];
    LedgerFacts(rules, plots, db);
    TipIsKnown(rules, plots, db);
    GenesisKnown(rules, plots, db);
    HashIsPositive(rules, plot.header);
    AdmissibleIsAcceptable(rules, plots, db, id, plot, now);
    UnknownIsLeaf(rules, plots, db, id);
    StoreAdds(rules, plots, id, Stored(plot, now));
    StoreHasTree(rules, plots');
    PathStep(plots', rules.genesisID, id);
    PathIs(rules, plots', id);
    PathIs(rules, plots', db.tip.value.id);
    ChildWorkGrows(rules, plots', id);
    MoreWorkOutranks(plots', id, db.tip.value.id);
    BetterOutranks(plots', db, id);
  }

  lemma PathIs(rules: Rules, plots: Plots, id: PlotID)
    ensures PathTo(rules, plots, id) == Path(plots, rules.genesisID, id)
  {
  }

  lemma MoreWorkOutranks(plots: Plots, a: PlotID, b: PlotID)
    requires a in plots && b in plots && plots[a].plot.header.threadWork > plots[b].plot.header.threadWork
    ensures Outranks(plots, a, b)
  {
  }

  /** Creates a plot on the tip, timed after the median. */
  method BeginPlot(p: P.Processor, pubKey: PubKey, memo: seq<byte>, now: int, txNonce: int, nonce: int)
    returns (plot: Option<Plot>)
    requires p.Ready()
    ensures plot.Some? ==>
      && Working(p.rules, p.plotStore.plots, p.ledger.db, p.txQueue.Contents(), plot.value)
      && HeadersOf(MainThread(p.rules, p.plotStore.plots, p.ledger.db)) != []
      && var median := MedianTimestamp(HeadersOf(MainThread(p.rules, p.plotStore.plots, p.ledger.db)));
        plot.value.header.time == if now > median then now else median + 1
  {
    hide *;
    p.ReadyParts();
    p.SoundParts();
    ghost var rules, plots, db := p.rules, p.plotStore.plots, p.ledger.db;
    LedgerFacts(rules, plots, db);
    p.WiredMeans();
    var tipID := p.ledger.db.tip.value.id;
    plot := CreateNextPlot(p, pubKey, memo, now, txNonce, nonce);
    if plot.None? {
      return;
    }
    var medianTimestamp := ComputeMedianTimestamp(p.rules, p.plotStore, tipID, p.plotStore.plots[tipID].plot.header);
    var header := plot.value.header;
    ScribedWorks(rules, plots, db, p.txQueue.Contents(), pubKey, plot.value, now);
    if header.time <= medianTimestamp {
      TimeIsFree(rules, plots, db, p.txQueue.Contents(), plot.value, medianTimestamp + 1, header.nonce);
      plot := Some(plot.value.(header := header.(time := medianTimestamp + 1)));
    }
  }

  lemma ScribedWorks(rules: Rules, plots: Plots, db: Database, queue: seq<Representation>, pubKey: PubKey, plot: Plot,
                     now: int)
    requires Scribed(rules, plots, db, queue, pubKey, plot) && plot.header.time == now
    ensures Working(rules, plots, db, queue, plot)
  {
    hide MainThread, Admissible, CanConnect, Funded, Extends, NextRoot, MaturesUnguarded;
  }

  /** Time and nonce may change while a plot is worked on. */
  lemma TimeIsFree(rules: Rules, plots: Plots, db: Database, queue: seq<Representation>, plot: Plot, time: int,
                   nonce: int)
    requires Working(rules, plots, db, queue, plot)
    ensures Working(rules, plots, db, queue, plot.(header := plot.header.(time := time, nonce := nonce)))
  {
    hide MainThread, ExpectedTarget, ThreadWork, NextRoot;
  }

  /** Appends a representation that has just been queued: a plot that has the whole queue keeps up with it. */
  method AddRepresentation(plot: Plot, tx: Representation) returns (r: Plot)
    requires plot.reps != []
    ensures r.reps == plot.reps + [tx]
    ensures r.header == plot.header.(hashListRoot := Ids(r.reps),
                                     representationCount := plot.header.representationCount + 1)
    ensures forall rules, plots, db, queue ::
      Working(rules, plots, db, queue, plot) && plot.reps[1..] == queue
      && |plot.reps| < MAX_REPRESENTATIONS_TO_INCLUDE_PER_PLOT ==>
        Working(rules, plots, db, queue + [tx], r) && r.reps[1..] == queue + [tx]
  {
    hide *;
    forall rules, plots, db, queue | Working(rules, plots, db, queue, plot) && plot.reps[1..] == queue
                                     && |plot.reps| < MAX_REPRESENTATIONS_TO_INCLUDE_PER_PLOT
      ensures var reps := plot.reps + [tx];
        var header := plot.header;
        Working(rules, plots, db, queue + [tx],
                Plot(header.(hashListRoot := Ids(reps), representationCount := header.representationCount + 1), reps))
        && reps[1..] == queue + [tx]
    {
      AddKeepsWorking(rules, plots, db, queue, plot, tx);
    }
    var reps, header := plot.reps + [tx], plot.header;
    header := header.(hashListRoot := Ids(reps), representationCount := header.representationCount + 1);
    r := Plot(header, reps);
  }

  lemma AddKeepsWorking(rules: Rules, plots: Plots, db: Database, queue: seq<Representation>, plot: Plot,
                        tx: Representation)
    requires Working(rules, plots, db, queue, plot) && plot.reps[1..] == queue
    requires |plot.reps| < MAX_REPRESENTATIONS_TO_INCLUDE_PER_PLOT
    ensures var reps := plot.reps + [tx];
      var header := plot.header.(hashListRoot := Ids(reps), representationCount := plot.header.representationCount + 1);
      Working(rules, plots, db, queue + [tx], Plot(header, reps)) && reps[1..] == queue + [tx]
  {
    hide MainThread, ExpectedTarget, ThreadWork, NextRoot;
    assert (plot.reps + [tx])[1..] == plot.reps[1..] + [tx];
  }

  /**
   * Hands a working plot to the processor. Unless its ID collides with a known one, it is accepted exactly
   * when it is a solution timed after the median that the ledger can connect, and then it is the tip.
   */
  method SubmitPlot(p: P.Processor, id: PlotID, plot: Plot, now: int) returns (r: Result<(), P.Refusal>)
    requires p.Ready() && p.rules.hash(plot.header) == id && (id == p.rules.genesisID ==> GenesisPlot(plot))
    requires Working(p.rules, p.plotStore.plots, p.ledger.db, p.txQueue.Contents(), plot)
    modifies p.plotStore, p.ledger, p.txQueue, p.txQueue.imbalanceCache
    ensures p.Ready()
    ensures old(Known(p.ledger.db, id)) ==> r.Ok? && p.ledger.db == old(p.ledger.db)
    ensures plot.reps != [] && old(HeadersOf(MainThread(p.rules, p.plotStore.plots, p.ledger.db))) != []
    ensures !old(Known(p.ledger.db, id)) ==>
      (r.Ok? <==>
         && Solves(p.rules, id, plot, now)
         && plot.header.time > MedianTimestamp(old(HeadersOf(MainThread(p.rules, p.plotStore.plots, p.ledger.db))))
         && old(Connectable(p.rules, p.plotStore.plots, p.ledger.db, plot)))
    ensures !old(Known(p.ledger.db, id)) && r.Ok? ==>
      p.ledger.db.tip.Some? && p.ledger.db.tip.value.id == id && p.Settled()
  {
    hide *;
    p.ReadyParts();
    p.SoundParts();
    p.SettledParts();
    p.ValidCases();
    ghost var rules, plots, db, queue := p.rules, p.plotStore.plots, p.ledger.db, p.txQueue.Contents();
    ghost var main := MainThread(rules, plots, db);
    LedgerFacts(rules, plots, db);
    p.StandsParts(main);
    StandsMeans(rules, plots, db, queue, main);
    TipHeights(rules, plots, db, main);
    AccountedMeans(rules, db, queue, p.txQueue.imbalanceCache.cache);
    WorkingParts(rules, plots, db, queue, plot);
    WorkingIsChecked(rules, plots, db, queue, id, plot, now);
    NextPlotAdmissible(rules, db, plots, main, queue, |plot.reps| - 1, plot, plot.reps[0]);
    TipIsKnown(rules, plots, db);
    GenesisKnown(rules, plots, db);
    if !Known(db, id) && CheckPlot(rules, id, plot, now) && Admissible(rules, plots, db, plot) {
      WorkingWins(rules, plots, db, queue, id, plot, now);
    }
    HeadersOfThread(main);
    r := p.ProcessPlot(id, plot, now);
    p.ValidCases();
  }

  lemma HeadersOfThread(chain: Thread)
    ensures |HeadersOf(chain)| == |chain|
  {
  }
}
