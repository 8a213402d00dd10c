/** The processor: accepting plots, reorganising the main thread, rolling back, and queueing. */
module Processor {
  import opened Plots
  import opened Balances
  import opened LedgerSpec
  import opened LedgerProofs
  import opened LedgerDisk
  import opened QueueSpec
  import opened RepresentationQueueMemory
  import opened Tree
  import opened Consensus
  import opened ThreadState
  import opened QueueProofs
  import opened QueueMoves
  import opened Checks
  import opened Reorganisation
  import opened Conservation

  // ---------- the fork walk ----------

  /** Walks down from the end of a path to `minHeight`; the IDs passed come out in both directions. */
  method WalkDown(plotStore: PlotStorage, ghost path: Thread, end: PlotID, minHeight: nat)
    returns (ancestorID: PlotID, ancestor: PlotHeader, down: seq<PlotID>, up: seq<PlotID>)
    requires Descends(plotStore.plots, path) && minHeight < |path| && path[|path| - 1].id == end
    ensures ancestorID == path[minHeight].id && ancestor == path[minHeight].plot.header
    ensures down == DownIds(path, minHeight + 1) && up == UpIds(path, minHeight + 1)
  {
    ghost var h := |path| - 1;
    assert StepOk(plotStore.plots, path, h);
    ancestorID, ancestor := end, plotStore.GetPlotHeader(end).value;
    down, up := [], [];
    while ancestor.height > minHeight
      invariant minHeight <= h < |path| && h == ancestor.height
      invariant ancestorID == path[h].id && ancestor == path[h].plot.header
      invariant down == DownIds(path, h + 1) && up == UpIds(path, h + 1)
      decreases h
    {
      DownStep(path, h);
      down, up := down + [ancestorID], [ancestorID] + up;
      assert StepOk(plotStore.plots, path, h) && StepOk(plotStore.plots, path, h - 1);
      ancestorID := ancestor.previous;
      ancestor := plotStore.GetPlotHeader(ancestorID).value;
      h := h - 1;
    }
  }

  /** Walks two paths down in step until the headers agree. */
  method WalkTogether(plotStore: PlotStorage, ghost a: Thread, ghost b: Thread, height: nat,
                      tipStart: PlotID, newStart: PlotID, down: seq<PlotID>, up: seq<PlotID>)
    returns (plotsToDisconnect: seq<PlotID>, plotsToConnect: seq<PlotID>)
    requires Descends(plotStore.plots, a) && Descends(plotStore.plots, b)
    requires height < |a| && height < |b| && tipStart == a[height].id && newStart == b[height].id
    requires 1 <= Common(a, b) <= height + 1
    requires forall h :: 0 <= h < |a| && h < |b| ==> (a[h].plot.header == b[h].plot.header <==> h < Common(a, b))
    requires down == DownIds(a, height + 1) && up == UpIds(b, height + 1)
    ensures plotsToDisconnect == DownIds(a, Common(a, b)) && plotsToConnect == UpIds(b, Common(a, b))
  {
    ghost var h := height;
    assert StepOk(plotStore.plots, a, h) && StepOk(plotStore.plots, b, h);
    var tipAncestorID, newAncestorID := tipStart, newStart;
    var tipAncestor := plotStore.GetPlotHeader(tipAncestorID).value;
    var newAncestor := plotStore.GetPlotHeader(newAncestorID).value;
    plotsToDisconnect, plotsToConnect := down, up;
    while newAncestor != tipAncestor
      invariant Common(a, b) - 1 <= h < |a| && h < |b|
      invariant tipAncestorID == a[h].id && tipAncestor == a[h].plot.header
      invariant newAncestorID == b[h].id && newAncestor == b[h].plot.header
      invariant plotsToDisconnect == DownIds(a, h + 1) && plotsToConnect == UpIds(b, h + 1)
      decreases h
    {
      DownStep(a, h);
      DownStep(b, h);
      plotsToDisconnect, plotsToConnect := plotsToDisconnect + [tipAncestorID], [newAncestorID] + plotsToConnect;
      assert StepOk(plotStore.plots, a, h) && StepOk(plotStore.plots, a, h - 1);
      assert StepOk(plotStore.plots, b, h) && StepOk(plotStore.plots, b, h - 1);
      tipAncestorID, newAncestorID := tipAncestor.previous, newAncestor.previous;
      tipAncestor := plotStore.GetPlotHeader(tipAncestorID).value;
      newAncestor := plotStore.GetPlotHeader(newAncestorID).value;
      h := h - 1;
    }
  }

  /**
   * Walks both branches back to their common ancestor. What comes out is the tip-down path to that
   * ancestor and the ancestor-up path to the new plot's parent, the ancestor itself in neither.
   */
  method ForkWalk(rules: Rules, plotStore: PlotStorage, tipID: PlotID, parentID: PlotID)
    returns (plotsToDisconnect: seq<PlotID>, plotsToConnect: seq<PlotID>)
    requires TreeOk(plotStore.plots, rules.genesisID) && HashesRight(rules, plotStore.plots)
    requires tipID in plotStore.plots && parentID in plotStore.plots
    ensures var a, b := PathTo(rules, plotStore.plots, tipID), PathTo(rules, plotStore.plots, parentID);
      var c := Common(a, b);
      && 1 <= c <= |a| && c <= |b|
      && plotsToDisconnect == DownIds(a, c) && plotsToConnect == UpIds(b, c)
  {
    ghost var a, b := PathTo(rules, plotStore.plots, tipID), PathTo(rules, plotStore.plots, parentID);
    PathDescends(rules, plotStore.plots, tipID);
    PathDescends(rules, plotStore.plots, parentID);
    PathsShareGenesis(rules, plotStore.plots, tipID, parentID);
    CommonMeans(a, b);
    HeadersTellTheFork(rules, plotStore.plots, tipID, parentID);
    var tipHeight := plotStore.GetPlotHeader(tipID).value.height;
    var newHeight := plotStore.GetPlotHeader(parentID).value.height;
    var minHeight := if newHeight < tipHeight then newHeight else tipHeight;
    var tipAncestorID, _, down, _ := WalkDown(plotStore, a, tipID, minHeight);
    var newAncestorID, _, _, up := WalkDown(plotStore, b, parentID, minHeight);
    plotsToDisconnect, plotsToConnect :=
      WalkTogether(plotStore, a, b, minHeight, tipAncestorID, newAncestorID, down, up);
  }

  // ---------- the processor ----------

  datatype Refusal =
    | BadPlot
    | Orphan
    | WrongHeight
    | WrongTarget
    | WrongThreadWork
    | TooEarly
    | BadRepresentation(id: RepresentationID)
    | NotConnected(error: LedgerError)
    | Panicked

  const MAX_REPRESENTATION_QUEUE_LENGTH := 10 * 10000

  datatype NotQueued =
    | BadShape
    | LoosePlotroot
    | QueueFull
    | AlreadyConfirmed
    | NoTip
    | InvalidSeries
    | Immature
    | Expired
    | BadSignature
    | Refused(error: QueueError)

  /** What the processor's loop receives; `now` is the clock when it does. */
  datatype Message = PlotMessage(plot: Plot, now: int) | RepresentationMessage(tx: Representation)

  class Processor {
    const rules: Rules
    const plotStore: PlotStorage
    const ledger: LedgerDisk
    const txQueue: RepresentationQueueMemory

    constructor (rules: Rules, plotStore: PlotStorage, txQueue: RepresentationQueueMemory, ledger: LedgerDisk)
      ensures this.rules == rules && this.plotStore == plotStore && this.txQueue == txQueue && this.ledger == ledger
      ensures (&& Wired() && RulesOk(rules) && ledger.db == EmptyDatabase && plotStore.plots == map[]
               && txQueue.Valid() && txQueue.Contents() == [] && txQueue.imbalanceCache.cache == map[]) ==> Valid()
    {
      this.rules := rules;
      this.plotStore := plotStore;
      this.txQueue := txQueue;
      this.ledger := ledger;
    }

    /** The parts are wired to one another. */
    ghost predicate Wired() {
      && ledger.plotStore == plotStore && ledger.rules == rules
      && txQueue.rules == rules && txQueue.imbalanceCache.ledger == ledger
    }

    ghost predicate Settled()
      reads ledger, txQueue, txQueue.imbalanceCache
    {
      SettledOn(ledger.db, txQueue.Contents(), txQueue.imbalanceCache.cache)
    }

    ghost predicate Accounted()
      reads ledger, txQueue, txQueue.imbalanceCache
    {
      AccountedOn(rules, ledger.db, txQueue.Contents(), txQueue.imbalanceCache.cache)
    }

    ghost predicate StandsOn(chain: Thread)
      reads plotStore, ledger, txQueue
    {
      txQueue.Valid() && Stands(rules, plotStore.plots, ledger.db, txQueue.Contents(), chain)
    }

    lemma WiredMeans()
      requires Wired()
      ensures ledger.plotStore == plotStore && ledger.rules == rules
      ensures txQueue.rules == rules && txQueue.imbalanceCache.ledger == ledger
    {
    }

    lemma StandsParts(chain: Thread)
      requires StandsOn(chain)
      ensures Reflects(rules, ledger.db, chain) && ValidThread(rules, chain) && txQueue.Valid() && ledger.Valid()
      ensures Stands(rules, plotStore.plots, ledger.db, txQueue.Contents(), chain)
    {
    }

    lemma StandsFromParts(chain: Thread)
      requires txQueue.Valid() && Stands(rules, plotStore.plots, ledger.db, txQueue.Contents(), chain)
      ensures StandsOn(chain)
    {
    }

    lemma ShowsSettled()
      requires Wired() && ledger.db.tip.Some?
      requires Applicable(ledger.db.imbalances, txQueue.Contents(), ledger.db.tip.value.height)
      requires Shows(txQueue.imbalanceCache, ledger.db.imbalances, txQueue.Contents())
      ensures Settled()
    {
      forall k ensures CacheView(txQueue.imbalanceCache.cache, ledger.db.imbalances, k)
                       == Bal(ledger.db.imbalances, k) + Net(txQueue.Contents(), k)
      {
        assert txQueue.imbalanceCache.View(k) == Bal(ledger.db.imbalances, k) + Net(txQueue.Contents(), k);
      }
    }

    /** Updates the ledger, then drops what the plot confirmed from the queue. */
    method ConnectPlot(id: PlotID, plot: Plot, more: bool, ghost chain: Thread) returns (r: Result<(), LedgerError>)
      requires Wired() && StandsOn(chain) && Candidate(plotStore.plots, chain, Entry(id, plot))
      modifies ledger, txQueue, txQueue.imbalanceCache
      ensures r.Ok? <==> ValidThread(rules, chain + [Entry(id, plot)])
      ensures r.Ok? ==> StandsOn(chain + [Entry(id, plot)]) && ledger.db.branches == old(ledger.db.branches)[id := MAIN]
      ensures r.Ok? && !more ==> Settled()
      ensures r.Ok? ==> var left := Pending(chain + [Entry(id, plot)], old(txQueue.Contents()));
                if more then txQueue.Contents() == left
                else Sieved(ledger.db.imbalances, |chain| + 1, left, txQueue.Contents())
      ensures r.Err? ==> ledger.db == old(ledger.db) && StandsOn(chain)
                         && txQueue.Contents() == old(txQueue.Contents())
                         && txQueue.imbalanceCache.cache == old(txQueue.imbalanceCache.cache)
    {
      hide *;
      ghost var e, queue := Entry(id, plot), txQueue.Contents();
      WiredMeans();
      StandsParts(chain);
      ConnectStands(rules, plotStore.plots, ledger.db, queue, chain, e);
      var txIDs := ledger.ConnectPlot(id, plot);
      if txIDs.Err? {
        StandsFromParts(chain);
        return Err(txIDs.error);
      }
      ConnectedMeans(rules, old(ledger.db), plotStore.plots, id, plot);
      CandidateParts(plotStore.plots, chain, e);
      StandsQueue(rules, plotStore.plots, old(ledger.db), queue, chain);
      ConnectedQueue(rules, chain, e, queue);
      StandsQueue(rules, plotStore.plots, ledger.db, Pending(chain + [e], queue), chain + [e]);
      PassedQueue(rules, chain + [e], ledger.db.imbalances, Pending(chain + [e], queue), |chain|);
      txQueue.RemoveBatch(txIDs.value[1..], plot.header.height, more);
      PassStands(rules, plotStore.plots, ledger.db, Without(queue, IdsIn(Ids(plot.reps)[1..])), chain + [e],
                 plot.header.height);
      StandsFromParts(chain + [e]);
      if !more {
        ShowsSettled();
      }
      return Ok(());
    }

    /** Updates the ledger, then puts the plot's representations back at the front of the queue. */
    method DisconnectPlot(id: PlotID, plot: Plot, ghost chain: Thread) returns (r: Result<(), LedgerError>)
      requires Wired() && chain != [] && StandsOn(chain + [Entry(id, plot)]) && !OnThread(chain, id)
      requires WellShaped(plot) && forall i :: 1 <= i < |plot.reps| ==> Checked(rules, plot.reps[i])
      modifies ledger, txQueue
      ensures r.Ok? && StandsOn(chain) && ledger.db.branches == old(ledger.db.branches)[id := SIDE]
      ensures txQueue.Contents() == Others(plot) + old(txQueue.Contents())
    {
      hide *;
      WiredMeans();
      StandsParts(chain + [Entry(id, plot)]);
      StandsQueue(rules, plotStore.plots, ledger.db, txQueue.Contents(), chain + [Entry(id, plot)]);
      DisconnectedQueue(rules, chain, Entry(id, plot), txQueue.Contents());
      DisconnectStands(rules, plotStore.plots, ledger.db, txQueue.Contents(), chain, Entry(id, plot));
      var txIDs := ledger.DisconnectPlot(id, plot);
      txQueue.AddBatch(plot.reps[1..]);
      DisconnectedBranches(rules, old(ledger.db), plotStore.plots, id, plot);
      StandsFromParts(chain);
      return Ok(());
    }

    /** Disconnects a thread's plots above its first c, from the tip down; this never fails. */
    method DisconnectAll(ids: seq<PlotID>, ghost a: Thread, ghost c: nat)
      requires Wired() && StandsOn(a) && 1 <= c <= |a| && |ids| == |a| - c && ids == DownIds(a, c)
      requires Once(a) && AllVerified(rules, a) && Holds(plotStore.plots, a)
      modifies ledger, txQueue
      ensures StandsOn(a[..c]) && ledger.db.branches == Marked(old(ledger.db.branches), a[c..], SIDE)
      ensures txQueue.Contents() == Loose(a[c..]) + old(txQueue.Contents())
      ensures c == |a| ==> ledger.db == old(ledger.db) && txQueue.Contents() == old(txQueue.Contents())
    {
      hide *;
      ghost var branches := ledger.db.branches;
      assert a[..|a|] == a;
      MarkNone(branches, a[|a|..], SIDE);
      NothingLoose(a[|a|..], txQueue.Contents());
      for d := 0 to |ids|
        invariant StandsOn(a[..|a| - d])
        invariant ledger.db.branches == Marked(branches, a[|a| - d..], SIDE)
        invariant txQueue.Contents() == Loose(a[|a| - d..]) + old(txQueue.Contents())
        invariant d == 0 ==> ledger.db == old(ledger.db) && txQueue.Contents() == old(txQueue.Contents())
      {
        ghost var n := |a| - d - 1;
        DisconnectStep(rules, plotStore.plots, branches, a, n);
        LooseInFront(a, n, old(txQueue.Contents()));
        assert ids[d] == a[n].id by {
          DownIdAt(a, c, d);
        }
        var plotToDisconnect := plotStore.plots[ids[d]].plot;
        var _ := DisconnectPlot(ids[d], plotToDisconnect, a[..n]);
      }
    }

    /** Connects the plots of b from index c on, as far as they connect. */
    method ConnectAll(ids: seq<PlotID>, ghost b: Thread, ghost c: nat)
      returns (r: Result<(), LedgerError>, ghost n: nat)
      requires Wired() && c <= |b| && StandsOn(b[..c]) && |ids| == |b| - c && ids == UpIds(b, c)
      requires IsThread(b) && Holds(plotStore.plots, b)
      modifies ledger, txQueue, txQueue.imbalanceCache
      ensures c <= n <= |b| && StandsOn(b[..n]) && ledger.db.branches == Marked(old(ledger.db.branches), b[c..n], MAIN)
      ensures r.Ok? <==> n == |b|
      ensures r.Err? ==> !ValidThread(rules, b[..n + 1])
      ensures txQueue.Contents() == Pending(b[..n], old(txQueue.Contents()))
      ensures n == c ==> ledger.db == old(ledger.db) && txQueue.Contents() == old(txQueue.Contents())
                         && txQueue.imbalanceCache.cache == old(txQueue.imbalanceCache.cache)
    {
      hide *;
      ghost var branches := ledger.db.branches;
      n := c;
      MarkNone(branches, b[c..c], MAIN);
      StandsParts(b[..c]);
      NothingPending(rules, plotStore.plots, ledger.db, txQueue.Contents(), b[..c]);
      for k := 0 to |ids|
        invariant n == c + k && StandsOn(b[..n])
        invariant ledger.db.branches == Marked(branches, b[c..n], MAIN)
        invariant txQueue.Contents() == Pending(b[..n], old(txQueue.Contents()))
        invariant k == 0 ==> ledger.db == old(ledger.db) && txQueue.Contents() == old(txQueue.Contents())
                             && txQueue.imbalanceCache.cache == old(txQueue.imbalanceCache.cache)
      {
        ConnectStep(plotStore.plots, branches, b, c, n);
        PendingLater(b, n, n + 1, old(txQueue.Contents()));
        assert ids[k] == b[n].id by {
          UpIdAt(b, c, k);
        }
        var plotToConnect := plotStore.plots[ids[k]].plot;
        var connected := ConnectPlot(ids[k], plotToConnect, true, b[..n]);
        if connected.Err? {
          return Err(connected.error), n;
        }
        n := n + 1;
      }
      return Ok(()), n;
    }

    /** Between calls, and between the two halves of a failed reorganisation: ledger, store and queue agree. */
    ghost predicate Running()
      reads plotStore, ledger, txQueue
    {
      && Wired()
      && LedgerOk(rules, plotStore.plots, ledger.db)
      && StandsOn(MainThread(rules, plotStore.plots, ledger.db))
    }

    /**
     * The three outcomes of moving from a database towards a stored plot: it was the tip, it became a side
     * plot, or the main thread went over to its branch, n plots of which are connected. All of them are when
     * it succeeded, and then the queue is settled. What the plots left behind had confirmed comes before
     * what was queued.
     */
    ghost predicate WentTowards(db: Database, queue: seq<Representation>, id: PlotID, ok: bool, n: nat)
      reads plotStore, ledger, txQueue, txQueue.imbalanceCache
    {
      var path := PathTo(rules, plotStore.plots, id);
      if db.tip.Some? && id == db.tip.value.id then
        ok && ledger.db == db
      else if !BeatsTip(plotStore.plots, db, id) then
        ok && ledger.db == db.(branches := db.branches[id := SIDE])
      else
        && WentOver(rules, plotStore.plots, db, ledger.db, id, n) && n <= |path| && StandsOn(path[..n])
        && (ok <==> n == |path|) && (ok ==> Settled())
        && WentQueue(ledger.db.imbalances, Loose(PastFork(rules, plotStore.plots, db, id)) + queue, path, n,
                     txQueue.Contents())
    }

    lemma WentTowardsMeans(db: Database, queue: seq<Representation>, id: PlotID, ok: bool, n: nat)
      requires WentTowards(db, queue, id, ok, n)
      ensures var path := PathTo(rules, plotStore.plots, id);
        if db.tip.Some? && id == db.tip.value.id then
          ok && ledger.db == db
        else if !BeatsTip(plotStore.plots, db, id) then
          ok && ledger.db == db.(branches := db.branches[id := SIDE])
        else
          && WentOver(rules, plotStore.plots, db, ledger.db, id, n) && n <= |path| && StandsOn(path[..n])
          && (ok <==> n == |path|) && (ok ==> Settled())
          && WentQueue(ledger.db.imbalances, Loose(PastFork(rules, plotStore.plots, db, id)) + queue, path, n,
                       txQueue.Contents())
    {
    }

    /**
     * Makes the stored plot the tip if it is the better one. Otherwise it is marked a side plot.
     * When a plot of the new branch does not connect, the ledger is left on the branch below that plot:
     * n is how much of the new branch is connected.
     */
    method AcceptPlotContinue(id: PlotID, plot: Plot, when: int) returns (r: Result<(), LedgerError>, ghost n: nat)
      requires Running() && id in plotStore.plots && plotStore.plots[id] == Stored(plot, when)
      requires id == ledger.db.tip.value.id || id != rules.genesisID
      modifies ledger, txQueue, txQueue.imbalanceCache
      ensures WentTowards(old(ledger.db), old(txQueue.Contents()), id, r.Ok?, n)
      ensures !BeatsTip(plotStore.plots, old(ledger.db), id) ==>
                QueueUntouched(old(txQueue.Contents()), old(txQueue.imbalanceCache.cache))
      ensures !Outranks(plotStore.plots, id, old(ledger.db).tip.value.id) ==> ledger.db.tip == old(ledger.db.tip)
      ensures r.Err? && n == ForkPoint(rules, plotStore.plots, old(ledger.db), id)
                     == |MainThread(rules, plotStore.plots, old(ledger.db))| ==>
                ledger.db == old(ledger.db)
                && QueueUntouched(old(txQueue.Contents()), old(txQueue.imbalanceCache.cache))
    {
      hide Reflects, ValidThread, StoreOk, QueueOk;
      n := 0;
      var tipID := ledger.db.tip.value.id;
      if id == tipID {
        return Ok(()), n;
      }
      var tip := plotStore.plots[tipID];
      BeatsIsOutranking(plotStore.plots, id, tipID);
      if !Compare(plot.header, tip.plot.header, when, tip.when, id, tipID) {
        ledger.SetBranchType(id, SIDE);
        return Ok(()), n;
      }
      r, n := Reorganise(id, plot);
    }

    ghost predicate QueueUntouched(queue: seq<Representation>, cache: map<PubKey, int>)
      reads txQueue, txQueue.imbalanceCache
    {
      txQueue.Valid() && txQueue.Contents() == queue && txQueue.imbalanceCache.cache == cache
    }

    lemma UntouchedMeans(queue: seq<Representation>, cache: map<PubKey, int>)
      ensures QueueUntouched(queue, cache) <==>
                txQueue.Valid() && txQueue.Contents() == queue && txQueue.imbalanceCache.cache == cache
    {
    }

    /** Disconnects the main thread down to the fork and connects the new branch up to the plot. */
    method Reorganise(id: PlotID, plot: Plot) returns (r: Result<(), LedgerError>, ghost n: nat)
      requires Wired() && LedgerOk(rules, plotStore.plots, ledger.db)
      requires StandsOn(MainThread(rules, plotStore.plots, ledger.db))
      requires id in plotStore.plots && plotStore.plots[id].plot == plot && id != rules.genesisID
      modifies ledger, txQueue, txQueue.imbalanceCache
      ensures WentOver(rules, plotStore.plots, old(ledger.db), ledger.db, id, n)
      ensures n <= |PathTo(rules, plotStore.plots, id)| && StandsOn(PathTo(rules, plotStore.plots, id)[..n])
      ensures r.Ok? <==> n == |PathTo(rules, plotStore.plots, id)|
      ensures r.Ok? ==> Settled()
      ensures WentQueue(ledger.db.imbalances, Loose(PastFork(rules, plotStore.plots, old(ledger.db), id))
                                              + old(txQueue.Contents()),
                        PathTo(rules, plotStore.plots, id), n, txQueue.Contents())
      ensures r.Err? && n == ForkPoint(rules, plotStore.plots, old(ledger.db), id)
                     == |MainThread(rules, plotStore.plots, old(ledger.db))| ==>
                ledger.db == old(ledger.db) && txQueue.Contents() == old(txQueue.Contents())
                && txQueue.imbalanceCache.cache == old(txQueue.imbalanceCache.cache)
    {
      hide *;
      ghost var plots, db, queue := plotStore.plots, ledger.db, txQueue.Contents();
      BranchFacts(rules, plots, db, id);
      PastForkIs(rules, plots, db, id);
      var tipID := ledger.db.tip.value.id;
      ghost var a, parents := MainThread(rules, plots, db), PathTo(rules, plots, plot.header.previous);
      ghost var e, c := Entry(id, plot), Common(a, parents);
      var plotsToDisconnect, plotsToConnect := ForkWalk(rules, plotStore, tipID, plot.header.previous);
      DisconnectAll(plotsToDisconnect, a, c);
      ghost var branches, back := ledger.db.branches, txQueue.Contents();
      r, n := ConnectAll(plotsToConnect, parents, c);
      PrefixOfLonger(parents, e, c, n);
      PendingLater(parents + [e], n, |parents| + 1, back);
      if r.Ok? {
        r := ConnectPlot(id, plot, false, parents);
        if r.Ok? {
          MarkOne(branches, parents[c..n], e, MAIN);
          n := n + 1;
        }
      }
      Assembled(rules, plots, db, ledger.db, id, n);
      WentQueueFrom(ledger.db.imbalances, back, parents + [e], n, txQueue.Contents());
    }

    /** The invariant of every reachable state once genesis is connected. */
    ghost predicate Ready()
      reads plotStore, ledger, txQueue, txQueue.imbalanceCache
    {
      Sound() && UnknownIsInvalid(rules, plotStore.plots, ledger.db)
    }

    /** The invariant, but for a plot that has just been stored. */
    ghost predicate Sound()
      reads plotStore, ledger, txQueue, txQueue.imbalanceCache
    {
      && Wired() && RulesOk(rules)
      && LedgerOk(rules, plotStore.plots, ledger.db)
      && StandsOn(MainThread(rules, plotStore.plots, ledger.db))
      && TipIsBest(plotStore.plots, ledger.db)
      && Accounted()
    }

    /** What handling a plot does to the queue, from what there was before. */
    ghost predicate QueueFollowed(plots: Plots, db: Database, queue: seq<Representation>, id: PlotID,
                                  r: Result<(), Refusal>)
      reads plotStore, ledger, txQueue
    {
      var a, m, now := MainThread(rules, plots, db), ledger.db.imbalances, txQueue.Contents();
      if ledger.db.tip != db.tip then
        Requeued(m, a, MainThread(rules, plotStore.plots, ledger.db), queue, now)
      else if r.Err? && r.error.NotConnected? then
        RolledBack(rules, m, a, PathTo(rules, plotStore.plots, id), queue, now)
      else
        now == queue
    }

    lemma QueueFollows(plots: Plots, db: Database, queue: seq<Representation>, id: PlotID, r: Result<(), Refusal>)
      requires var a, m, now := MainThread(rules, plots, db), ledger.db.imbalances, txQueue.Contents();
        if ledger.db.tip != db.tip then
          Requeued(m, a, MainThread(rules, plotStore.plots, ledger.db), queue, now)
        else if r.Err? && r.error.NotConnected? then
          RolledBack(rules, m, a, PathTo(rules, plotStore.plots, id), queue, now)
        else
          now == queue
      ensures QueueFollowed(plots, db, queue, id, r)
    {
    }

    /** Goes back to the tip there was before a plot failed to connect. */
    method ReconnectTip(id: PlotID) returns (r: Result<(), LedgerError>, ghost n: nat)
      requires Running() && id in plotStore.plots
      requires id == ledger.db.tip.value.id || id != rules.genesisID
      modifies ledger, txQueue, txQueue.imbalanceCache
      ensures WentTowards(old(ledger.db), old(txQueue.Contents()), id, r.Ok?, n)
      ensures !BeatsTip(plotStore.plots, old(ledger.db), id) ==>
                QueueUntouched(old(txQueue.Contents()), old(txQueue.imbalanceCache.cache))
    {
      hide *;
      var stored := plotStore.plots[id];
      assert stored == Stored(stored.plot, stored.when);
      r, n := AcceptPlotContinue(id, stored.plot, stored.when);
    }

    lemma ReadyParts()
      requires Ready()
      ensures Sound() && UnknownIsInvalid(rules, plotStore.plots, ledger.db)
    {
    }

    lemma ReadyFromParts()
      requires Sound() && UnknownIsInvalid(rules, plotStore.plots, ledger.db)
      ensures Ready()
    {
    }

    lemma SoundParts()
      requires Sound()
      ensures Wired() && RulesOk(rules) && TipIsBest(plotStore.plots, ledger.db)
      ensures LedgerOk(rules, plotStore.plots, ledger.db) && StoreOk(rules, plotStore.plots)
      ensures StandsOn(MainThread(rules, plotStore.plots, ledger.db))
      ensures Accounted()
      ensures ledger.db.tip.Some? && ledger.db.tip.value.id in plotStore.plots
      ensures Running() && Known(ledger.db, ledger.db.tip.value.id)
    {
      TipIsKnown(rules, plotStore.plots, ledger.db);
    }

    lemma SoundFromParts(main: Thread)
      requires Wired() && RulesOk(rules) && TipIsBest(plotStore.plots, ledger.db)
      requires LedgerOk(rules, plotStore.plots, ledger.db) && MainThread(rules, plotStore.plots, ledger.db) == main
      requires StandsOn(main) && Accounted()
      ensures Sound()
    {
    }

    lemma RunningFromParts(main: Thread)
      requires Wired() && LedgerOk(rules, plotStore.plots, ledger.db)
      requires MainThread(rules, plotStore.plots, ledger.db) == main && StandsOn(main)
      ensures Running()
    {
    }

    lemma SettledParts()
      ensures Settled() <==> SettledOn(ledger.db, txQueue.Contents(), txQueue.imbalanceCache.cache)
      ensures Accounted() <==> AccountedOn(rules, ledger.db, txQueue.Contents(), txQueue.imbalanceCache.cache)
    {
    }

    lemma SettledAccounts(chain: Thread)
      requires Settled() && StandsOn(chain)
      ensures Accounted()
    {
      SettledIsAccounted(rules, plotStore.plots, ledger.db, txQueue.Contents(), chain, txQueue.imbalanceCache.cache);
    }

    /** Moves the main thread to a better plot; when that fails, rolls back to exactly the old database. */
    method MoveTip(id: PlotID, plot: Plot, when: int) returns (r: Result<(), LedgerError>)
      requires Sound() && id in plotStore.plots && plotStore.plots[id] == Stored(plot, when)
      requires !Known(ledger.db, id) && id != rules.genesisID
      modifies ledger, txQueue, txQueue.imbalanceCache
      ensures Sound()
      ensures r.Err? ==> ledger.db == old(ledger.db)
      ensures r.Ok? ==> if BeatsTip(plotStore.plots, old(ledger.db), id)
                        then ledger.db.tip.Some? && ledger.db.tip.value.id == id
                        else ledger.db == old(ledger.db).(branches := old(ledger.db).branches[id := SIDE])
      ensures r.Err? <==> BeatsTip(plotStore.plots, old(ledger.db), id)
                          && !ValidThread(rules, PathTo(rules, plotStore.plots, id))
      ensures forall x :: Known(old(ledger.db), x) || (x == id && r.Ok?) ==> Known(ledger.db, x)
      ensures ledger.db.tip != old(ledger.db.tip) || old(Settled()) ==> Settled()
      ensures var a, b := MainThread(rules, plotStore.plots, old(ledger.db)), PathTo(rules, plotStore.plots, id);
        if r.Err? then RolledBack(rules, ledger.db.imbalances, a, b, old(txQueue.Contents()), txQueue.Contents())
        else if BeatsTip(plotStore.plots, old(ledger.db), id)
        then Requeued(ledger.db.imbalances, a, b, old(txQueue.Contents()), txQueue.Contents())
        else txQueue.Contents() == old(txQueue.Contents())
    {
      hide *;
      SoundParts();
      ghost var plots, db, better := plotStore.plots, ledger.db, BeatsTip(plotStore.plots, ledger.db, id);
      ghost var queue, cache := txQueue.Contents(), txQueue.imbalanceCache.cache;
      ghost var a, b := MainThread(rules, plots, db), PathTo(rules, plots, id);
      LedgerFacts(rules, plots, db);
      StandsParts(a);
      SettledParts();
      var tipID := ledger.db.tip.value.id;
      BeatsTipMeans(plots, db, id);
      UnknownForks(rules, plots, db, id);
      PastForkIs(rules, plots, db, id);
      StandsQueue(rules, plots, db, queue, a);
      ghost var n := 0;
      r, n := AcceptPlotContinue(id, plot, when);
      WentTowardsMeans(db, queue, id, r.Ok?, n);
      UntouchedMeans(queue, cache);
      if r.Ok? {
        if better {
          StandsParts(b[..n]);
          WentAllTheWay(rules, plots, db, ledger.db, id, n);
          RequeuedFrom(ledger.db.imbalances, a, b, queue, txQueue.Contents());
          KnownStays(rules, plots, db, ledger.db, id, n);
          SettledAccounts(b);
          SoundFromParts(b);
        } else {
          SideStands(rules, plots, db, queue, cache, id);
          SideKnown(db, id);
          StandsFromParts(a);
          SettledParts();
          SoundFromParts(a);
        }
        return;
      }
      StandsParts(b[..n]);
      WentPartOfTheWay(rules, plots, db, ledger.db, id, n);
      RunningFromParts(b[..n]);
      ghost var mid := ledger.db;
      BeatsTipMeans(plots, mid, tipID);
      ghost var queue', cache' := txQueue.Contents(), txQueue.imbalanceCache.cache;
      var back, m := ReconnectTip(tipID);
      WentTowardsMeans(mid, queue', tipID, back.Ok?, m);
      UntouchedMeans(queue', cache');
      if mid.tip.value.id != tipID {
        StandsParts(a[..m]);
        RollbackIsExact(rules, plots, db, mid, ledger.db, id, n, m);
        assert a[..m] == a;
        ForkOfTheWayBack(rules, plots, db, mid, id, n);
        PastForkIs(rules, plots, mid, tipID);
        BackAndForth(b, Common(a, b), n);
        RolledBackFrom(rules, mid.imbalances, ledger.db.imbalances, a, b, n, queue, queue', txQueue.Contents());
        SettledAccounts(a);
      } else {
        StandsFromParts(a);
        SettledParts();
        NothingRolledBack(rules, ledger.db.imbalances, a, b, n, queue);
      }
      SoundFromParts(a);
    }

    /** The shortcut around signature checks is sound: a queued twin has been verified. */
    lemma QueuedIsVerified(tx: Representation, chain: Thread)
      requires StandsOn(chain) && txQueue.ExistsSigned(tx.Id(), tx.signature)
      ensures rules.verify(tx)
    {
      var r :| r in txQueue.Contents() && r.Id() == tx.Id() && r.signature == tx.signature;
      IdTells(r, tx);
    }

    /** Checks series, maturity, expiration and signatures; finds the first offender. */
    method CheckInclusion(plot: Plot, ghost chain: Thread) returns (offender: Option<RepresentationID>)
      requires StandsOn(chain) && Wired()
      ensures offender.None? <==>
              forall i :: 0 <= i < |plot.reps| ==> MayInclude(rules, plot.reps[i], plot.header.height)
    {
      hide Stands;
      for i := 0 to |plot.reps|
        invariant forall j :: 0 <= j < i ==> MayInclude(rules, plot.reps[j], plot.header.height)
      {
        var tx := plot.reps[i];
        if !CheckRepresentationSeries(tx, plot.header.height) {
          return Some(tx.Id());
        }
        if !tx.IsPlotroot() {
          if !tx.IsMature(plot.header.height) || tx.IsExpired(plot.header.height) {
            return Some(tx.Id());
          }
          if !txQueue.ExistsSigned(tx.Id(), tx.signature) {
            if !rules.verify(tx) {
              return Some(tx.Id());
            }
          } else {
            QueuedIsVerified(tx, chain);
          }
        }
      }
      return None;
    }

    /** Whether the header and the representations of a plot are what the thread before it demands. */
    method CheckAgainstParent(id: PlotID, plot: Plot) returns (refusal: Option<Refusal>)
      requires Ready() && Known(ledger.db, plot.header.previous)
      ensures refusal.None? <==> Admissible(rules, plotStore.plots, ledger.db, plot)
      ensures refusal.Some? ==> !refusal.value.NotConnected?
    {
      hide *;
      ReadyParts();
      SoundParts();
      LedgerFacts(rules, plotStore.plots, ledger.db);
      KnownIsStored(rules, plotStore.plots, ledger.db, plot.header.previous);
      AdmissibleMeans(rules, plotStore.plots, ledger.db, plot);
      var prevID := plot.header.previous;
      var prevHeader := plotStore.plots[prevID].plot.header;
      if plot.header.height != prevHeader.height + 1 {
        return Some(WrongHeight);
      }
      var target := ComputeTarget(rules, plotStore, ledger, prevID, prevHeader);
      if target.None? {
        return Some(Panicked);
      }
      if plot.header.target != target.value {
        return Some(WrongTarget);
      }
      var threadWork := ThreadWork(plot.header.target, prevHeader.threadWork);
      if threadWork.None? {
        return Some(Panicked);
      }
      if plot.header.threadWork != threadWork.value {
        return Some(WrongThreadWork);
      }
      var medianTimestamp := ComputeMedianTimestamp(rules, plotStore, prevID, prevHeader);
      if plot.header.time <= medianTimestamp {
        return Some(TooEarly);
      }
      var offender := CheckInclusion(plot, MainThread(rules, plotStore.plots, ledger.db));
      if offender.Some? {
        return Some(BadRepresentation(offender.value));
      }
      return None;
    }

    /** Tries to extend the thread with a plot whose parent is known. */
    method AcceptPlot(id: PlotID, plot: Plot, now: int) returns (r: Result<(), Refusal>)
      requires Ready() && Known(ledger.db, plot.header.previous) && !Known(ledger.db, id)
      requires CheckPlot(rules, id, plot, now) && rules.hash(plot.header) == id && id != rules.genesisID
      modifies plotStore, ledger, txQueue, txQueue.imbalanceCache
      ensures Ready()
      ensures plotStore.plots == if Admissible(rules, old(plotStore.plots), old(ledger.db), plot)
                                 then old(plotStore.plots)[id := Stored(plot, now)] else old(plotStore.plots)
      ensures r.Err? ==> ledger.db == old(ledger.db)
      ensures r.Ok? <==>
        && Admissible(rules, old(plotStore.plots), old(ledger.db), plot)
        && (BeatsTip(plotStore.plots, old(ledger.db), id) ==> ValidThread(rules, PathTo(rules, plotStore.plots, id)))
      ensures r.Ok? ==>
        if BeatsTip(plotStore.plots, old(ledger.db), id)
        then ledger.db.tip.Some? && ledger.db.tip.value.id == id
        else ledger.db == old(ledger.db).(branches := old(ledger.db).branches[id := SIDE])
      ensures ledger.db.tip != old(ledger.db.tip) || old(Settled()) ==> Settled()
      ensures QueueFollowed(old(plotStore.plots), old(ledger.db), old(txQueue.Contents()), id, r)
    {
      hide *;
      ReadyParts();
      SoundParts();
      ghost var queue := txQueue.Contents();
      var refusal := CheckAgainstParent(id, plot);
      if refusal.Some? {
        QueueFollows(plotStore.plots, ledger.db, queue, id, Err(refusal.value));
        return Err(refusal.value);
      }
      ghost var plots, db, main := plotStore.plots, ledger.db, MainThread(rules, plotStore.plots, ledger.db);
      StandsParts(main);
      SettledParts();
      HashIsPositive(rules, plot.header);
      AdmissibleIsAcceptable(rules, plots, db, id, plot, now);
      UnknownIsLeaf(rules, plots, db, id);
      StoreKeepsLedger(rules, plots, db, id, Stored(plot, now));
      plotStore.Store(id, plot, now);
      StandsInStore(rules, plots, plotStore.plots, db, txQueue.Contents(), main);
      StandsFromParts(main);
      SettledParts();
      SoundFromParts(main);
      var moved := MoveTip(id, plot, now);
      UnknownAfter(rules, plots, plotStore.plots, db, ledger.db, id, Stored(plot, now), moved.Ok?);
      ReadyFromParts();
      r := if moved.Ok? then Ok(()) else Err(NotConnected(moved.error));
      BeatsTipMeans(plotStore.plots, db, id);
      MainThreadIs(rules, plotStore.plots, ledger.db);
      QueueFollows(plots, db, queue, id, r);
    }

    /** Nothing stored, connected or queued yet. */
    ghost predicate Blank()
      reads plotStore, ledger, txQueue, txQueue.imbalanceCache
    {
      && Wired() && RulesOk(rules) && ledger.db == EmptyDatabase && plotStore.plots == map[]
      && txQueue.Valid() && txQueue.Contents() == [] && txQueue.imbalanceCache.cache == map[]
    }

    /** The invariant of every reachable state. */
    ghost predicate Valid()
      reads plotStore, ledger, txQueue, txQueue.imbalanceCache
    {
      if ledger.db.tip.None? then Blank() else Ready()
    }

    lemma BlankParts()
      requires Blank()
      ensures Wired() && RulesOk(rules) && ledger.db == EmptyDatabase && plotStore.plots == map[]
      ensures txQueue.Valid() && txQueue.Contents() == [] && ledger.Valid()
      ensures forall id :: !Known(ledger.db, id)
    {
    }

    lemma ValidCases()
      ensures Valid() <==> if ledger.db.tip.None? then Blank() else Ready()
      ensures ledger.db == EmptyDatabase ==> ledger.db.tip.None? && forall id :: !Known(ledger.db, id)
    {
    }

    lemma ValidIsWired()
      requires Valid()
      ensures Wired()
    {
    }

    /** What changes nothing leaves the queue as the main thread has it. */
    lemma QueueStays(plots: Plots, db: Database, queue: seq<Representation>, id: PlotID)
      requires ledger.db == db && txQueue.Contents() == queue
      ensures forall r: Result<(), Refusal> :: !(r.Err? && r.error.NotConnected?) ==>
                QueueFollowed(plots, db, queue, id, r)
    {
    }

    /** Begins the ledger. */
    method BeginLedger(id: PlotID, plot: Plot, now: int)
      requires Blank() && id == rules.genesisID && rules.hash(plot.header) == id && GenesisPlot(plot) && Bounded(plot)
      requires id <= plot.header.target
      modifies plotStore, ledger, txQueue, txQueue.imbalanceCache
      ensures Ready() && Settled()
      ensures ledger.db.tip == Some(Tip(id, 0)) && plotStore.plots == map[id := Stored(plot, now)]
      ensures QueueFollowed(old(plotStore.plots), old(ledger.db), old(txQueue.Contents()), id, Ok(()))
    {
      hide *;
      BlankParts();
      NoTipNoThread(rules, plotStore.plots, ledger.db);
      WiredMeans();
      plotStore.Store(id, plot, now);
      ghost var e := Entry(id, plot);
      GenesisIsValid(rules, id, plot);
      GenesisCandidate(plotStore.plots, id, plot);
      BlankStands(rules, plotStore.plots);
      StandsFromParts([]);
      assert [] + [e] == [e];
      var r := ConnectPlot(id, plot, false, []);
      StandsParts([e]);
      assert EmptyDatabase.branches[id := MAIN] == map[id := MAIN] by {
        EmptyMarks(id);
      }
      GenesisLedger(rules, plotStore.plots, ledger.db, id, Stored(plot, now));
      GenesisTip(rules, ledger.db, e);
      SettledAccounts([e]);
      SoundFromParts([e]);
      ReadyFromParts();
      NothingAbandoned(ledger.db.imbalances, [e], [], txQueue.Contents());
      QueueFollows(map[], EmptyDatabase, [], id, Ok(()));
    }

    /**
     * Processes a plot from a peer. Known plots are left alone; bad plots and orphans change nothing;
     * everything else is accepted or refused as AcceptPlot says. The tip only gives way to a plot that
     * outranks it, and the queue follows the main thread.
     */
    method ProcessPlot(id: PlotID, plot: Plot, now: int) returns (r: Result<(), Refusal>)
      requires Valid() && rules.hash(plot.header) == id && (id == rules.genesisID ==> GenesisPlot(plot))
      modifies plotStore, ledger, txQueue, txQueue.imbalanceCache
      ensures Valid()
      ensures r.Err? ==> ledger.db == old(ledger.db)
      ensures TipWork(plotStore.plots, ledger.db) >= old(TipWork(plotStore.plots, ledger.db))
      ensures ledger.db.tip != old(ledger.db.tip) || old(Settled()) ==> Settled()
      ensures ledger.db.tip != old(ledger.db.tip) && old(ledger.db.tip).Some? ==>
                ledger.db.tip.Some? && Outranks(plotStore.plots, ledger.db.tip.value.id, old(ledger.db.tip).value.id)
      ensures QueueFollowed(old(plotStore.plots), old(ledger.db), old(txQueue.Contents()), id, r)
      ensures var plots, db := old(plotStore.plots), old(ledger.db);
        if Known(db, id) then
          r.Ok? && ledger.db == db && plotStore.plots == plots
        else if !CheckPlot(rules, id, plot, now) then
          r == Err(BadPlot) && plotStore.plots == plots
        else if !Known(db, plot.header.previous) && id != rules.genesisID then
          r == Err(Orphan) && plotStore.plots == plots
        else if id == rules.genesisID then
          r.Ok? && ledger.db.tip == Some(Tip(id, 0)) && plotStore.plots == map[id := Stored(plot, now)]
        else
          && plotStore.plots == (if Admissible(rules, plots, db, plot) then plots[id := Stored(plot, now)] else plots)
          && (r.Ok? <==>
                && Admissible(rules, plots, db, plot)
                && (BeatsTip(plotStore.plots, db, id) ==> ValidThread(rules, PathTo(rules, plotStore.plots, id))))
          && (r.Ok? ==>
                if BeatsTip(plotStore.plots, db, id)
                then ledger.db.tip.Some? && ledger.db.tip.value.id == id
                else ledger.db == db.(branches := db.branches[id := SIDE]))
    {
      hide Ready, Blank, Valid, CheckPlot, Admissible, PathTo, MainThread, BeatsTip, ValidThread, RulesOk, GenesisPlot,
           LedgerOk, StoreOk, TreeOk, Wired, StandsOn, TipIsBest, Settled, Reflects, Running, TipWork, Sound, Accounted,
           UnknownIsInvalid, AccountedOn, SettledOn, Outranks, QueueFollowed, Requeued, RolledBack;
      ghost var queue := txQueue.Contents();
      QueueStays(plotStore.plots, ledger.db, queue, id);
      NoTipNoWork(plotStore.plots, ledger.db);
      ValidCases();
      if ledger.db.tip.None? {
        BlankParts();
      } else {
        ReadyParts();
        SoundParts();
        LedgerFacts(rules, plotStore.plots, ledger.db);
        GenesisKnown(rules, plotStore.plots, ledger.db);
      }
      if ledger.GetBranchType(id) != UNKNOWN {
        return Ok(());
      }
      if !CheckPlot(rules, id, plot, now) {
        return Err(BadPlot);
      }
      var parentBranch := ledger.GetBranchType(plot.header.previous);
      if parentBranch != MAIN && parentBranch != SIDE {
        if id == rules.genesisID {
          CheckedShape(rules, id, plot, now);
          BeginLedger(id, plot, now);
          ValidCases();
          return Ok(());
        }
        return Err(Orphan);
      }
      r := AcceptPlot(id, plot, now);
      ReadyParts();
      SoundParts();
      ValidCases();
      TipWorkAfter(old(plotStore.plots), plotStore.plots, old(ledger.db), ledger.db, id, Stored(plot, now));
      BetterOutranks(plotStore.plots, old(ledger.db), id);
    }

    /** Why a representation cannot be in the next plot, whatever the queue holds; None if it can. */
    function Inclusion(tx: Representation): (obstacle: Option<NotQueued>)
      reads ledger, txQueue
      ensures obstacle.Some? ==> !obstacle.value.Refused?
    {
      if !CheckRepresentation(rules, tx) then Some(BadShape)
      else if tx.IsPlotroot() then Some(LoosePlotroot)
      else if txQueue.Len() >= MAX_REPRESENTATION_QUEUE_LENGTH then Some(QueueFull)
      else if ledger.GetRepresentationIndex(tx.Id()).Some? then Some(AlreadyConfirmed)
      else if ledger.GetThreadTip().None? then Some(NoTip)
      else
        var height := ledger.GetThreadTip().value.height + 1;
        if !CheckRepresentationSeries(tx, height) then Some(InvalidSeries)
        else if !tx.IsMature(height) then Some(Immature)
        else if tx.IsExpired(height) then Some(Expired)
        else if !rules.verify(tx) then Some(BadSignature)
        else None
    }

    /**
     * In every reachable state, exactly what a plot at the next height could include and no plot of the main
     * thread has confirmed gets as far as the queue, while there is room.
     */
    lemma InclusionIff(tx: Representation)
      requires Ready()
      ensures var main := MainThread(rules, plotStore.plots, ledger.db);
        Inclusion(tx).None? <==>
          && CheckRepresentation(rules, tx) && !tx.IsPlotroot() && rules.verify(tx)
          && |txQueue.Contents()| < MAX_REPRESENTATION_QUEUE_LENGTH
          && IncludableAt(tx, |main|) && !Confirmed(main, tx.Id())
    {
      hide *;
      var main := MainThread(rules, plotStore.plots, ledger.db);
      ReadyParts();
      SoundParts();
      LedgerFacts(rules, plotStore.plots, ledger.db);
      IndexedIsFound(rules, ledger.db, main, tx.Id());
      InclusionCases(tx);
      if IncludableAt(tx, |main|) && !tx.IsPlotroot() {
        InSeries(tx, |main|);
        IndexTellsConfirmed(rules, ledger.db, main, tx);
      }
    }

    lemma InclusionCases(tx: Representation)
      ensures Inclusion(tx).None? <==>
        && CheckRepresentation(rules, tx) && !tx.IsPlotroot() && rules.verify(tx)
        && |txQueue.Contents()| < MAX_REPRESENTATION_QUEUE_LENGTH
        && !(tx.Id() in ledger.db.repIndex && ledger.db.repIndex[tx.Id()].height in ledger.db.heights)
        && ledger.db.tip.Some? && IncludableAt(tx, ledger.db.tip.value.height + 1)
    {
    }

    lemma InclusionMeans(tx: Representation, main: Thread)
      requires Ready() && Inclusion(tx).None? && main == MainThread(rules, plotStore.plots, ledger.db)
      ensures StandsOn(main) && ledger.db.tip.Some? && ledger.db.tip.value.height + 1 == |main|
      ensures Checked(rules, tx) && !tx.IsPlotroot() && tx.byKey != Some(tx.forKey) && IncludableAt(tx, |main|)
      ensures CheckRepresentationSeries(tx, |main|)
      ensures tx.Id() !in ledger.db.repIndex && !Confirmed(main, tx.Id())
    {
      hide *;
      ReadyParts();
      SoundParts();
      LedgerFacts(rules, plotStore.plots, ledger.db);
      IndexedIsFound(rules, ledger.db, main, tx.Id());
      InclusionParts(tx);
      IndexTellsConfirmed(rules, ledger.db, main, tx);
    }

    lemma InclusionParts(tx: Representation)
      requires Inclusion(tx).None?
      ensures ledger.db.tip.Some? && Checked(rules, tx) && !tx.IsPlotroot() && tx.byKey != Some(tx.forKey)
      ensures IncludableAt(tx, ledger.db.tip.value.height + 1)
      ensures CheckRepresentationSeries(tx, ledger.db.tip.value.height + 1)
      ensures !(tx.Id() in ledger.db.repIndex && ledger.db.repIndex[tx.Id()].height in ledger.db.heights)
    {
    }

    lemma AbsentMeans(id: RepresentationID)
      requires txQueue.Valid()
      ensures !txQueue.Exists(id) ==> forall r :: r in txQueue.Contents() ==> r.Id() != id
    {
    }

    /** Whether the sender, as the queue's cache shows it, has a unit to give. */
    predicate CanAfford(tx: Representation)
      reads ledger, txQueue.imbalanceCache
      requires Wired()
    {
      tx.byKey.Some? ==> txQueue.imbalanceCache.View(tx.byKey.value) >= 1
    }

    /** Exactly the representations that get as far as the guard and no further. */
    predicate TurnsAway(tx: Representation)
      reads ledger, txQueue, txQueue.imbalanceCache
      requires Wired()
    {
      Inclusion(tx).None? && !txQueue.Exists(tx.Id()) && CanAfford(tx) && rules.guard(tx)
    }

    lemma TurnsAwayMeans(tx: Representation)
      requires Wired()
      ensures TurnsAway(tx) <==>
                Inclusion(tx).None? && !txQueue.Exists(tx.Id()) && CanAfford(tx) && rules.guard(tx)
      ensures CanAfford(tx) <==> (tx.byKey.Some? ==> txQueue.imbalanceCache.View(tx.byKey.value) >= 1)
    {
    }

    /**
     * Queues a representation for the next plot. What is queued is not on the main thread, even where
     * the index is pruned. A settled queue stays settled, except when the guard turns the sender away.
     */
    method ProcessRepresentation(tx: Representation) returns (r: Result<bool, NotQueued>)
      requires Valid()
      modifies txQueue, txQueue.imbalanceCache
      ensures Valid()
      ensures r == if old(Inclusion(tx)).Some? then Err(old(Inclusion(tx)).value)
                   else if old(txQueue.Exists(tx.Id())) then Ok(false)
                   else if !old(CanAfford(tx)) then Err(Refused(InsufficientSender))
                   else if rules.guard(tx) then Err(Refused(DescendantSender))
                   else Ok(true)
      ensures txQueue.Contents() == if r == Ok(true) then old(txQueue.Contents()) + [tx] else old(txQueue.Contents())
      ensures r == Ok(true) ==> |txQueue.Contents()| <= MAX_REPRESENTATION_QUEUE_LENGTH
      ensures r.Ok? ==> !Confirmed(MainThread(rules, plotStore.plots, ledger.db), tx.Id())
      ensures old(Settled()) ==> (Settled() <==> !old(TurnsAway(tx)))
    {
      hide *;
      ValidCases();
      ValidIsWired();
      TurnsAwayMeans(tx);
      var obstacle := Inclusion(tx);
      if obstacle.Some? {
        return Err(obstacle.value);
      }
      InclusionHasTip(tx);
      InclusionCases(tx);
      ghost var main, db := MainThread(rules, plotStore.plots, ledger.db), ledger.db;
      ghost var queue, cache := txQueue.Contents(), txQueue.imbalanceCache.cache;
      ReadyParts();
      SoundParts();
      InclusionMeans(tx, main);
      StandsParts(main);
      SettledParts();
      WiredMeans();
      ViewMeans();
      AbsentMeans(tx.Id());
      var added := txQueue.Add(tx);
      ViewMeans();
      SettledParts();
      if added == Ok(true) || added == Err(DescendantSender) {
        ghost var cache' := txQueue.imbalanceCache.cache;
        CacheMovedFrom(db.imbalances, cache, cache', tx);
        AddIsAccounted(rules, db, queue, cache, cache', tx);
        if SettledOn(db, queue, cache) {
          SettledCanSend(db, queue, cache, tx);
          AddSettlesIff(db, queue, cache, cache', tx);
        }
      }
      if added == Ok(true) {
        AddKeepsQueue(rules, plotStore.plots, db, queue, main, tx);
      }
      StandsFromParts(main);
      SoundFromParts(main);
      ReadyFromParts();
      ValidCases();
      r := match added case Ok(b) => Ok(b) case Err(e) => Err(Refused(e));
    }

    /** What the invariant says, in terms a user of the ledger would ask for. */
    lemma Guarantees()
      requires Ready()
      ensures var plots, db, main := plotStore.plots, ledger.db, MainThread(rules, plotStore.plots, ledger.db);
        && Reflects(rules, db, main) && NoRepeats(main)
        && NonNegative(db.imbalances) && NoZeros(db.imbalances)
        && db.tip.Some?
        && Total(db.imbalances) == (if db.tip.value.height - PLOTROOT_MATURITY >= 0
                                    then db.tip.value.height - PLOTROOT_MATURITY + 1 else 0)
        && (forall id :: id in plots ==>
              rules.hash(plots[id].plot.header) == id && id <= plots[id].plot.header.target)
        && (forall id :: Known(db, id) && id != db.tip.value.id ==>
              Outranks(plots, db.tip.value.id, id))
        && (forall id :: id in plots && id != db.tip.value.id && ValidThread(rules, PathTo(rules, plots, id)) ==>
              Outranks(plots, db.tip.value.id, id))
        && (forall tx :: tx in txQueue.Contents() ==>
              !Confirmed(main, tx.Id()) && Checked(rules, tx) && !rules.guard(tx) && IncludableAt(tx, |main|))
        && AccountedOn(rules, db, txQueue.Contents(), txQueue.imbalanceCache.cache)
        && (Settled() ==> Funded(db.imbalances, txQueue.Contents()))
    {
      hide *;
      var plots, db, main := plotStore.plots, ledger.db, MainThread(rules, plotStore.plots, ledger.db);
      ReadyParts();
      SoundParts();
      LedgerFacts(rules, plots, db);
      StandsParts(main);
      SettledParts();
      StoredHasWork(rules, plots);
      AccountedMeans(rules, db, txQueue.Contents(), txQueue.imbalanceCache.cache);
      forall id | id in plots && id != db.tip.value.id && ValidThread(rules, PathTo(rules, plots, id))
        ensures Outranks(plots, db.tip.value.id, id)
      {
        TipBeatsValid(rules, plots, db, id);
        BeatsIsOutranking(plots, db.tip.value.id, id);
      }
      forall id | Known(db, id) && id != db.tip.value.id ensures Outranks(plots, db.tip.value.id, id) {
        KnownIsStored(rules, plots, db, id);
        TipBeatsKnown(plots, db, id);
        BeatsIsOutranking(plots, db.tip.value.id, id);
      }
      StandingMeans(rules, plots, db, txQueue.Contents(), txQueue.imbalanceCache.cache, main);
      IndexedIsFound(rules, db, main, Representation(0, 0, None, [], [], 0, 0, 0, []).Id());
      PathEnd(rules, plots, db.tip.value.id);
      ImbalancesConserved(rules, db, main);
    }

    /** Handles messages one after the other, as the processor's own loop does. */
    method Run(messages: seq<Message>)
      requires Valid()
      requires forall m :: m in messages && m.PlotMessage? && rules.hash(m.plot.header) == rules.genesisID ==>
                 GenesisPlot(m.plot)
      modifies plotStore, ledger, txQueue, txQueue.imbalanceCache
      ensures Valid()
      ensures old(ledger.db.tip).Some? ==> ledger.db.tip.Some?
      ensures TipWork(plotStore.plots, ledger.db) >= old(TipWork(plotStore.plots, ledger.db))
      ensures old(Settled() || ledger.db.tip.None?)
              && (forall m :: m in messages && m.RepresentationMessage? ==> !rules.guard(m.tx)) ==>
                Settled() || ledger.db.tip.None?
    {
      hide *;
      for i := 0 to |messages|
        invariant Valid()
        invariant old(ledger.db.tip).Some? ==> ledger.db.tip.Some?
        invariant TipWork(plotStore.plots, ledger.db) >= old(TipWork(plotStore.plots, ledger.db))
        invariant old(Settled() || ledger.db.tip.None?)
                  && (forall m :: m in messages && m.RepresentationMessage? ==> !rules.guard(m.tx)) ==>
                    Settled() || ledger.db.tip.None?
      {
        var m := messages[i];
        assert m in messages;
        match m
        case PlotMessage(plot, now) =>
          var _ := ProcessPlot(rules.hash(plot.header), plot, now);
        case RepresentationMessage(tx) =>
          ValidIsWired();
          TurnsAwayMeans(tx);
          var _ := ProcessRepresentation(tx);
      }
    }

    lemma InclusionHasTip(tx: Representation)
      requires Inclusion(tx).None?
      ensures ledger.db.tip.Some?
    {
    }

    lemma ViewMeans()
      requires Wired()
      ensures forall k :: txQueue.imbalanceCache.View(k) ==
                CacheView(txQueue.imbalanceCache.cache, ledger.db.imbalances, k)
    {
    }
  }

  /** A node that has seen nothing yet. */
  method Start(rules: Rules) returns (p: Processor)
    requires RulesOk(rules)
    ensures fresh(p) && p.rules == rules && p.Valid() && p.ledger.db == EmptyDatabase
  {
    var plotStore := new PlotStorage();
    var ledger := new LedgerDisk(plotStore, rules);
    var txQueue := new RepresentationQueueMemory(ledger, rules);
    p := new Processor(rules, plotStore, txQueue, ledger);
  }
}
