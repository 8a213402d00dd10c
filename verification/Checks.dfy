/** Checks on representations and plots that need no ledger, and the walks over stored headers. */
module Checks {
  import opened Plots
  import opened LedgerSpec
  import opened LedgerProofs
  import opened LedgerDisk
  import opened Tree
  import opened Consensus
  import opened ThreadState

  const MAX_FUTURE_SECONDS := 2 * 60 * 60
  const INITIAL_MAX_REPRESENTATIONS_PER_PLOT := 10000
  const PLOTS_UNTIL_REPRESENTATIONS_PER_PLOT_DOUBLING := 105000
  const MAX_REPRESENTATIONS_PER_PLOT_EXCEEDED_AT_HEIGHT := 1852032

  /** The representation limit: doubling every 105000 plots, linear in between, then flat. */
  function MaxRepresentations(height: nat): nat {
    if height >= MAX_REPRESENTATIONS_PER_PLOT_EXCEEDED_AT_HEIGHT then MAX_REPRESENTATIONS_PER_PLOT
    else
      var factor := Pow2(height / PLOTS_UNTIL_REPRESENTATIONS_PER_PLOT_DOUBLING);
      var remainder := height % PLOTS_UNTIL_REPRESENTATIONS_PER_PLOT_DOUBLING;
      INITIAL_MAX_REPRESENTATIONS_PER_PLOT * factor
      + INITIAL_MAX_REPRESENTATIONS_PER_PLOT * factor * remainder / PLOTS_UNTIL_REPRESENTATIONS_PER_PLOT_DOUBLING
  }

  /** The limit never exceeds what a 32-bit count can hold. */
  lemma MaxRepresentationsFits(height: nat)
    ensures MaxRepresentations(height) <= MAX_REPRESENTATIONS_PER_PLOT
  {
    hide Pow2;
    if height < MAX_REPRESENTATIONS_PER_PLOT_EXCEEDED_AT_HEIGHT {
      Interpolated(height / PLOTS_UNTIL_REPRESENTATIONS_PER_PLOT_DOUBLING,
                   height % PLOTS_UNTIL_REPRESENTATIONS_PER_PLOT_DOUBLING);
    }
  }

  lemma Interpolated(n: nat, r: nat)
    requires n < 17 || (n == 17 && r <= 67031)
    requires r < 105000
    ensures 10000 * Pow2(n) + 10000 * Pow2(n) * r / 105000 <= 0x7FFF_FFFF
  {
    hide *;
    Pow2At16();
    if n < 17 {
      Pow2Grows(n, 16);
      InterpolationFits(10000 * Pow2(n), r, 105000, 104999, 655360000);
    } else {
      InterpolationFits(1310720000, r, 105000, 67031, 1310720000);
    }
  }

  /** At the start of every period the limit has doubled, until it reaches the maximum. */
  lemma LimitDoubles(d: nat)
    ensures MaxRepresentations(0) == INITIAL_MAX_REPRESENTATIONS_PER_PLOT
    ensures var now := MaxRepresentations(d * PLOTS_UNTIL_REPRESENTATIONS_PER_PLOT_DOUBLING);
      var next := MaxRepresentations((d + 1) * PLOTS_UNTIL_REPRESENTATIONS_PER_PLOT_DOUBLING);
      next == if 2 * now > MAX_REPRESENTATIONS_PER_PLOT then MAX_REPRESENTATIONS_PER_PLOT else 2 * now
  {
    Pow2At16();
    PeriodStart(d);
    PeriodStart(d + 1);
    if d < 17 {
      Pow2Grows(d, 16);
    }
  }

  lemma PeriodStart(d: nat)
    ensures MaxRepresentations(d * PLOTS_UNTIL_REPRESENTATIONS_PER_PLOT_DOUBLING)
            == if d <= 17 then INITIAL_MAX_REPRESENTATIONS_PER_PLOT * Pow2(d) else MAX_REPRESENTATIONS_PER_PLOT
  {
    var h := d * PLOTS_UNTIL_REPRESENTATIONS_PER_PLOT_DOUBLING;
    assert h / PLOTS_UNTIL_REPRESENTATIONS_PER_PLOT_DOUBLING == d;
    assert h % PLOTS_UNTIL_REPRESENTATIONS_PER_PLOT_DOUBLING == 0;
  }

  /** The limit never falls. */
  lemma LimitNeverFalls(height: nat, later: nat)
    requires height <= later
    ensures MaxRepresentations(height) <= MaxRepresentations(later)
  {
    MaxRepresentationsFits(height);
    if later < MAX_REPRESENTATIONS_PER_PLOT_EXCEEDED_AT_HEIGHT {
      var n, r := height / PLOTS_UNTIL_REPRESENTATIONS_PER_PLOT_DOUBLING,
        height % PLOTS_UNTIL_REPRESENTATIONS_PER_PLOT_DOUBLING;
      var n', r' := later / PLOTS_UNTIL_REPRESENTATIONS_PER_PLOT_DOUBLING,
        later % PLOTS_UNTIL_REPRESENTATIONS_PER_PLOT_DOUBLING;
      LimitRises(n, r, n', r');
    }
  }

  lemma LimitRises(n: nat, r: nat, n': nat, r': nat)
    requires r < 105000 && r' < 105000 && (n < n' || (n == n' && r <= r'))
    ensures 10000 * Pow2(n) + 10000 * Pow2(n) * r / 105000 <= 10000 * Pow2(n') + 10000 * Pow2(n') * r' / 105000
  {
    hide Pow2;
    var x := 10000 * Pow2(n);
    if n == n' {
      InterpolationFits(x, r, 105000, r', x);
    } else {
      InterpolationFits(x, r, 105000, 105000, x);
      Whole(x, 105000);
      Pow2Grows(n + 1, n');
      Pow2Twice(n);
      QuotientBounds(10000 * Pow2(n') * r', 105000, 0);
    }
  }

  lemma Pow2Twice(n: nat)
    ensures Pow2(n + 1) == 2 * Pow2(n)
  {
  }

  lemma Whole(x: nat, d: nat)
    requires d > 0
    ensures x * d / d == x
  {
    QuotientBounds(x * d, d, x);
    QuotientBounds(x * d, d, x + 1);
  }

  lemma Pow2At16()
    ensures Pow2(16) == 65536 && Pow2(17) == 131072
  {
    assert Pow2(4) == 16 && Pow2(8) == 256 && Pow2(12) == 4096;
  }

  lemma {:induction false} Pow2Grows(m: nat, n: nat)
    requires m <= n
    ensures Pow2(m) <= Pow2(n)
    decreases n - m
  {
    if m < n {
      Pow2Grows(m + 1, n);
    }
  }

  lemma InterpolationFits(x: nat, r: nat, d: nat, r': nat, x': nat)
    requires d > 0 && r <= r' && x <= x'
    ensures x * r / d <= x' * r' / d
  {
    assert x * r <= x' * r <= x' * r';
    QuotientRises(x * r, x' * r', d);
  }

  predicate CheckPlot(rules: Rules, id: PlotID, plot: Plot, now: int) {
    var header := plot.header;
    && 0 <= header.time <= MAX_NUMBER
    && header.time <= now + MAX_FUTURE_SECONDS
    && id <= header.target
    && 0 <= header.nonce <= MAX_NUMBER
    && 0 <= header.height <= MAX_NUMBER
    && header.representationCount == |plot.reps|
    && |plot.reps| > 0
    && plot.reps[0].IsPlotroot()
    && |plot.reps| <= MaxRepresentations(header.height)
    && (forall i :: 1 <= i < |plot.reps| ==> !plot.reps[i].IsPlotroot())
    && (forall i :: 0 <= i < |plot.reps| ==> CheckRepresentation(rules, plot.reps[i]))
    && DistinctIds(plot.reps)
    && header.hashListRoot == Ids(plot.reps)
  }

  /** The target the plot after `prevID` must declare; None stands for a crash. */
  ghost function ExpectedTarget(rules: Rules, plots: Plots, db: Database, prevID: PlotID): Option<nat> {
    var headers := HeadersOf(PathTo(rules, plots, prevID));
    if headers == [] then None
    else
      var prev := headers[|headers| - 1];
      if prev.height >= BITCOIN_CASH_RETARGET_ALGORITHM_HEIGHT then
        match PlotAt(db, plots, prev.height - RETARGET_SMA_WINDOW)
        case None => None
        case Some(first) => WindowTarget(first.header, prev)
      else Some(BitcoinTarget(headers))
  }

  /** When the fork is no deeper than the window, the header the ledger finds is the plot's own ancestor. */
  lemma ExpectedTargetIsThreadTarget(rules: Rules, plots: Plots, db: Database, prevID: PlotID)
    requires TreeOk(plots, rules.genesisID) && prevID in plots
    requires Reflects(rules, db, MainThread(rules, plots, db)) && Holds(plots, MainThread(rules, plots, db))
    requires var n, main, path := plots[prevID].plot.header.height + 1,
               MainThread(rules, plots, db), PathTo(rules, plots, prevID);
      n - 1 >= BITCOIN_CASH_RETARGET_ALGORITHM_HEIGHT ==>
        && n - 1 - RETARGET_SMA_WINDOW < |main| && n == |path|
        && main[n - 1 - RETARGET_SMA_WINDOW] == path[n - 1 - RETARGET_SMA_WINDOW]
    ensures var headers := HeadersOf(PathTo(rules, plots, prevID));
      headers != [] && ExpectedTarget(rules, plots, db, prevID) == ThreadTarget(headers)
  {
    hide Reflects, Holds, TreeOk;
    PathLength(plots, rules.genesisID, prevID);
    PlotAtReflects(rules, db, plots, MainThread(rules, plots, db),
                   plots[prevID].plot.header.height - RETARGET_SMA_WINDOW);
  }

  /** Header, of the plot at height h of a path, by walking back from the end. */
  method WalkBack(plotStore: PlotStorage, ghost path: Thread, prevHeader: PlotHeader, steps: nat)
    returns (header: PlotHeader)
    requires Descends(plotStore.plots, path) && steps < |path| && prevHeader == path[|path| - 1].plot.header
    ensures header == path[|path| - 1 - steps].plot.header
  {
    header := prevHeader;
    for i := 0 to steps
      invariant header == path[|path| - 1 - i].plot.header
    {
      assert StepOk(plotStore.plots, path, |path| - 1 - i) && StepOk(plotStore.plots, path, |path| - 2 - i);
      header := plotStore.GetPlotHeader(header.previous).value;
    }
  }

  method ComputeTargetBitcoin(plotStore: PlotStorage, ghost path: Thread, prevHeader: PlotHeader) returns (target: nat)
    requires Descends(plotStore.plots, path) && path != [] && prevHeader == path[|path| - 1].plot.header
    ensures target == BitcoinTarget(HeadersOf(path))
  {
    assert StepOk(plotStore.plots, path, |path| - 1);
    if (prevHeader.height + 1) % RETARGET_INTERVAL != 0 {
      return prevHeader.target;
    }
    var plotsToGoBack :=
      if prevHeader.height + 1 != RETARGET_INTERVAL then RETARGET_INTERVAL else RETARGET_INTERVAL - 1;
    var firstHeader := WalkBack(plotStore, path, prevHeader, plotsToGoBack);
    return Retargeted(prevHeader.target, firstHeader.time, prevHeader.time);
  }

  method ComputeTarget(rules: Rules, plotStore: PlotStorage, ledger: LedgerDisk, prevID: PlotID, prevHeader: PlotHeader)
    returns (target: Option<nat>)
    requires TreeOk(plotStore.plots, rules.genesisID) && ledger.plotStore == plotStore
    requires prevID in plotStore.plots && prevHeader == plotStore.plots[prevID].plot.header
    ensures target == ExpectedTarget(rules, plotStore.plots, ledger.db, prevID)
  {
    hide *;
    ghost var path := PathTo(rules, plotStore.plots, prevID);
    PathDescends(rules, plotStore.plots, prevID);
    ExpectedMeans(rules, plotStore.plots, ledger.db, prevID);
    if prevHeader.height >= BITCOIN_CASH_RETARGET_ALGORITHM_HEIGHT {
      var first := ledger.OldPlot(prevHeader.height - RETARGET_SMA_WINDOW);
      return if first.None? then None else WindowTarget(first.value.header, prevHeader);
    }
    var t := ComputeTargetBitcoin(plotStore, path, prevHeader);
    return Some(t);
  }

  lemma ExpectedMeans(rules: Rules, plots: Plots, db: Database, prevID: PlotID)
    requires TreeOk(plots, rules.genesisID) && prevID in plots
    ensures var headers, prev := HeadersOf(PathTo(rules, plots, prevID)), plots[prevID].plot.header;
      && headers != [] && PathTo(rules, plots, prevID) != []
      && PathTo(rules, plots, prevID)[|headers| - 1].plot.header == prev
      && ExpectedTarget(rules, plots, db, prevID) ==
           if prev.height >= BITCOIN_CASH_RETARGET_ALGORITHM_HEIGHT then
             (match PlotAt(db, plots, prev.height - RETARGET_SMA_WINDOW)
              case None => None
              case Some(first) => WindowTarget(first.header, prev))
           else Some(BitcoinTarget(headers))
  {
    hide TreeOk, WindowTarget, BitcoinTarget;
    PathLength(plots, rules.genesisID, prevID);
  }

  ghost predicate StartsThere(plots: Plots, path: Thread) {
    forall h :: 0 <= h < |path| ==> (path[h].plot.header.previous in plots <==> h > 0)
  }

  /** Walks back at most 11 plots, stopping after genesis. */
  method CollectTimes(plotStore: PlotStorage, ghost path: Thread, prev: PlotHeader) returns (timestamps: seq<int>)
    requires Descends(plotStore.plots, path) && StartsThere(plotStore.plots, path)
    requires path != [] && prev == path[|path| - 1].plot.header
    ensures timestamps == LastTimes(HeadersOf(path))
  {
    timestamps := [];
    var prevHeader := prev;
    ghost var all := LastTimes(HeadersOf(path));
    for i := 0 to NUM_PLOTS_FOR_MEDIAN_TIMESTAMP
      invariant i < NUM_PLOTS_FOR_MEDIAN_TIMESTAMP ==> i < |path| && prevHeader == path[|path| - 1 - i].plot.header
      invariant i <= |all| && timestamps == all[..i]
    {
      timestamps := timestamps + [prevHeader.time];
      assert StepOk(plotStore.plots, path, |path| - 1 - i);
      var parent := plotStore.GetPlotHeader(prevHeader.previous);
      if parent.None? {
        break;
      }
      assert StepOk(plotStore.plots, path, |path| - 2 - i);
      prevHeader := parent.value;
    }
  }

  /** The middle of the sorted times of at most 11 plots. */
  method ComputeMedianTimestamp(rules: Rules, plotStore: PlotStorage, prevID: PlotID, prevHeader: PlotHeader)
    returns (median: int)
    requires TreeOk(plotStore.plots, rules.genesisID)
    requires prevID in plotStore.plots && prevHeader == plotStore.plots[prevID].plot.header
    ensures HeadersOf(PathTo(rules, plotStore.plots, prevID)) != []
    ensures median == MedianTimestamp(HeadersOf(PathTo(rules, plotStore.plots, prevID)))
  {
    PathDescends(rules, plotStore.plots, prevID);
    BelowGenesis(rules, plotStore.plots, prevID);
    var timestamps := CollectTimes(plotStore, PathTo(rules, plotStore.plots, prevID), prevHeader);
    return MedianOf(timestamps);
  }

  /** The parent of a path's first plot is not stored, that of every other plot is. */
  lemma BelowGenesis(rules: Rules, plots: Plots, id: PlotID)
    requires TreeOk(plots, rules.genesisID) && id in plots
    ensures StartsThere(plots, PathTo(rules, plots, id))
  {
    PathLength(plots, rules.genesisID, id);
    forall h | 0 <= h < |PathTo(rules, plots, id)|
      ensures PathTo(rules, plots, id)[h].plot.header.previous in plots <==> h > 0
    {
      PathPrefix(plots, rules.genesisID, id, h);
      assert NodeOk(plots, rules.genesisID, PathTo(rules, plots, id)[h].id);
    }
  }

  /** A representation may be in a plot of this height, signed by its sender. */
  predicate MayInclude(rules: Rules, tx: Representation, height: int) {
    && CheckRepresentationSeries(tx, height)
    && (!tx.IsPlotroot() ==> tx.IsMature(height) && !tx.IsExpired(height) && rules.verify(tx))
  }

  /** Everything acceptance asks of a plot besides shape, given the plots it would join. */
  ghost predicate Admissible(rules: Rules, plots: Plots, db: Database, plot: Plot) {
    var header := plot.header;
    && header.previous in plots
    && header.height == plots[header.previous].plot.header.height + 1
    && ExpectedTarget(rules, plots, db, header.previous) == Some(header.target)
    && ThreadWork(header.target, plots[header.previous].plot.header.threadWork) == Some(header.threadWork)
    && HeadersOf(PathTo(rules, plots, header.previous)) != []
    && header.time > MedianTimestamp(HeadersOf(PathTo(rules, plots, header.previous)))
    && forall i :: 0 <= i < |plot.reps| ==> MayInclude(rules, plot.reps[i], header.height)
  }

  lemma CheckedShape(rules: Rules, id: PlotID, plot: Plot, now: int)
    requires CheckPlot(rules, id, plot, now)
    ensures WellShaped(plot) && id <= plot.header.target && Bounded(plot)
  {
    MaxRepresentationsFits(plot.header.height);
    hide MaxRepresentations;
    forall i | 0 <= i < |plot.reps|
      ensures |plot.reps[i].forKey| == PUBLIC_KEY_SIZE
      ensures plot.reps[i].byKey.Some? ==> |plot.reps[i].byKey.value| == PUBLIC_KEY_SIZE
    {
      assert CheckRepresentation(rules, plot.reps[i]);
    }
    forall i | 0 <= i < |plot.reps| ensures plot.reps[i].byKey != Some(plot.reps[i].forKey) {
      assert CheckRepresentation(rules, plot.reps[i]);
    }
  }

  lemma IncludedMeans(rules: Rules, plot: Plot)
    requires WellShaped(plot) && forall i :: 0 <= i < |plot.reps| ==> CheckRepresentation(rules, plot.reps[i])
    requires forall i :: 0 <= i < |plot.reps| ==> MayInclude(rules, plot.reps[i], plot.header.height)
    ensures SeriesRight(plot)
    ensures forall i :: 1 <= i < |plot.reps| ==>
              Checked(rules, plot.reps[i]) && IncludableAt(plot.reps[i], plot.header.height)
  {
    forall i | 0 <= i < |plot.reps|
      ensures CheckRepresentationSeries(plot.reps[i], plot.header.height)
      ensures i > 0 ==> Checked(rules, plot.reps[i]) && IncludableAt(plot.reps[i], plot.header.height)
    {
      assert MayInclude(rules, plot.reps[i], plot.header.height);
    }
  }

  /** Shape checks and admission together are what the store asks of a plot. */
  lemma AdmissibleIsAcceptable(rules: Rules, plots: Plots, db: Database, id: PlotID, plot: Plot, now: int)
    requires StoreOk(rules, plots) && CheckPlot(rules, id, plot, now) && Admissible(rules, plots, db, plot)
    requires rules.hash(plot.header) == id > 0 && id != rules.genesisID && plot.header.previous != id
    ensures MayStore(rules, plots, id, plot)
  {
    CheckedShape(rules, id, plot, now);
    IncludedMeans(rules, plot);
    PathEnd(rules, plots, plot.header.previous);
    ExpectedMeans(rules, plots, db, plot.header.previous);
    hide StoreOk, CheckPlot, PathTo, MedianTimestamp, HeadersOf, ExpectedTarget, ThreadWork, WellShaped, SeriesRight,
         BitcoinTarget, Bounded;
  }

  lemma AdmissibleMeans(rules: Rules, plots: Plots, db: Database, plot: Plot)
    requires plot.header.previous in plots
    ensures var header := plot.header;
      Admissible(rules, plots, db, plot) <==>
        && header.height == plots[header.previous].plot.header.height + 1
        && ExpectedTarget(rules, plots, db, header.previous) == Some(header.target)
        && ThreadWork(header.target, plots[header.previous].plot.header.threadWork) == Some(header.threadWork)
        && HeadersOf(PathTo(rules, plots, header.previous)) != []
        && header.time > MedianTimestamp(HeadersOf(PathTo(rules, plots, header.previous)))
        && forall i :: 0 <= i < |plot.reps| ==> MayInclude(rules, plot.reps[i], header.height)
  {
  }
}
