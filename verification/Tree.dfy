/** The plot store as a tree of headers: every stored plot has one path down from genesis. */
module Tree {
  import opened Plots
  import opened LedgerSpec

  /** Genesis at height 0 with no stored parent; every other plot one above its stored parent. */
  ghost predicate NodeOk(plots: Plots, genesis: PlotID, id: PlotID)
    requires id in plots
  {
    var header := plots[id].plot.header;
    if id == genesis then header.height == 0 && header.previous !in plots
    else header.previous in plots && header.height == plots[header.previous].plot.header.height + 1 && header.height > 0
  }

  ghost predicate TreeOk(plots: Plots, genesis: PlotID) {
    forall id :: id in plots ==> NodeOk(plots, genesis, id)
  }

  /** The plots from genesis to `id`, both included. */
  ghost function Path(plots: Plots, genesis: PlotID, id: PlotID): Thread
    decreases if id in plots then plots[id].plot.header.height else 0
  {
    if id !in plots then []
    else
      var header := plots[id].plot.header;
      var e := Entry(id, plots[id].plot);
      if id != genesis && header.previous in plots && 0 <= plots[header.previous].plot.header.height < header.height
      then Path(plots, genesis, header.previous) + [e]
      else [e]
  }

  lemma {:induction false} PathLength(plots: Plots, genesis: PlotID, id: PlotID)
    requires TreeOk(plots, genesis) && id in plots
    ensures var path := Path(plots, genesis, id);
      && |path| == plots[id].plot.header.height + 1
      && path[|path| - 1] == Entry(id, plots[id].plot)
      && path[0].id == genesis
    decreases plots[id].plot.header.height
  {
    assert NodeOk(plots, genesis, id);
    if id != genesis {
      assert NodeOk(plots, genesis, plots[id].plot.header.previous);
      PathLength(plots, genesis, plots[id].plot.header.previous);
    }
  }

  /** The path to any plot on a path is a prefix of it. */
  lemma {:induction false} PathPrefix(plots: Plots, genesis: PlotID, id: PlotID, h: nat)
    requires TreeOk(plots, genesis) && id in plots && h <= plots[id].plot.header.height
    ensures |Path(plots, genesis, id)| == plots[id].plot.header.height + 1
    ensures var path := Path(plots, genesis, id);
      && path[h].id in plots && path[h] == Entry(path[h].id, plots[path[h].id].plot)
      && plots[path[h].id].plot.header.height == h
      && Path(plots, genesis, path[h].id) == path[..h + 1]
      && (h > 0 ==> path[h].id != genesis && path[h].plot.header.previous == path[h - 1].id)
    decreases plots[id].plot.header.height
  {
    var path := Path(plots, genesis, id);
    PathLength(plots, genesis, id);
    assert NodeOk(plots, genesis, id);
    if h == plots[id].plot.header.height {
      assert path[..h + 1] == path;
      if h > 0 {
        PathLength(plots, genesis, plots[id].plot.header.previous);
      }
    } else {
      var parent := plots[id].plot.header.previous;
      PathLength(plots, genesis, parent);
      PathPrefix(plots, genesis, parent, h);
      assert path[..h + 1] == Path(plots, genesis, parent)[..h + 1];
    }
  }

  /** Paths do not depend on when plots were stored. */
  lemma {:induction false} PathIgnoresTimes(plots: Plots, plots': Plots, genesis: PlotID, id: PlotID)
    requires plots.Keys == plots'.Keys && forall i :: i in plots ==> plots'[i].plot == plots[i].plot
    ensures Path(plots', genesis, id) == Path(plots, genesis, id)
    decreases if id in plots then plots[id].plot.header.height else 0
  {
    if id in plots {
      var header := plots[id].plot.header;
      if id != genesis && header.previous in plots && 0 <= plots[header.previous].plot.header.height < header.height {
        PathIgnoresTimes(plots, plots', genesis, header.previous);
      }
    }
  }

  lemma PathHeld(plots: Plots, genesis: PlotID, id: PlotID)
    requires TreeOk(plots, genesis) && id in plots
    ensures Holds(plots, Path(plots, genesis, id))
  {
    PathLength(plots, genesis, id);
    forall h | 0 <= h < |Path(plots, genesis, id)|
      ensures Path(plots, genesis, id)[h].id in plots
      ensures plots[Path(plots, genesis, id)[h].id].plot == Path(plots, genesis, id)[h].plot
    {
      PathPrefix(plots, genesis, id, h);
    }
  }

  /** An ID sits on a path at its own height only. */
  lemma PathOnce(plots: Plots, genesis: PlotID, id: PlotID, h: nat)
    requires TreeOk(plots, genesis) && id in plots && h <= plots[id].plot.header.height
    ensures |Path(plots, genesis, id)| == plots[id].plot.header.height + 1
    ensures !OnThread(Path(plots, genesis, id)[..h], Path(plots, genesis, id)[h].id)
  {
    var path := Path(plots, genesis, id);
    PathPrefix(plots, genesis, id, h);
    if OnThread(path[..h], path[h].id) {
      var i :| 0 <= i < h && path[i].id == path[h].id;
      PathPrefix(plots, genesis, id, i);
      assert false;
    }
  }

  /** Storing a plot under an ID no stored plot builds on leaves every other path alone. */
  lemma {:induction false} PathFrame(plots: Plots, plots': Plots, genesis: PlotID, added: PlotID, id: PlotID)
    requires TreeOk(plots, genesis) && TreeOk(plots', genesis)
    requires forall i :: i in plots && i != added ==> i in plots' && plots'[i] == plots[i]
    requires forall i :: i in plots ==> plots[i].plot.header.previous != added
    requires id in plots && id != added
    ensures id in plots' && Path(plots', genesis, id) == Path(plots, genesis, id)
    decreases plots[id].plot.header.height
  {
    assert NodeOk(plots, genesis, id);
    if id != genesis {
      assert NodeOk(plots, genesis, plots[id].plot.header.previous);
      PathFrame(plots, plots', genesis, added, plots[id].plot.header.previous);
    }
  }

  /** Unfolds a path by one plot. */
  lemma PathStep(plots: Plots, genesis: PlotID, id: PlotID)
    requires TreeOk(plots, genesis) && id in plots && id != genesis
    ensures var parent := plots[id].plot.header.previous;
      && parent in plots
      && plots[id].plot.header.height == plots[parent].plot.header.height + 1 && plots[parent].plot.header.height >= 0
      && |Path(plots, genesis, parent)| == plots[id].plot.header.height
      && Path(plots, genesis, id) == Path(plots, genesis, parent) + [Entry(id, plots[id].plot)]
  {
    assert NodeOk(plots, genesis, id);
    assert NodeOk(plots, genesis, plots[id].plot.header.previous);
    PathLength(plots, genesis, plots[id].plot.header.previous);
  }

  ghost predicate WorkGrows(plots: Plots, genesis: PlotID) {
    forall id :: id in plots && id != genesis && plots[id].plot.header.previous in plots ==>
      plots[id].plot.header.threadWork > plots[plots[id].plot.header.previous].plot.header.threadWork
  }

  lemma {:induction false} AncestorWorkIsLess(plots: Plots, genesis: PlotID, id: PlotID, h: nat)
    requires TreeOk(plots, genesis) && WorkGrows(plots, genesis)
    requires id in plots && h < plots[id].plot.header.height
    ensures |Path(plots, genesis, id)| == plots[id].plot.header.height + 1
    ensures Path(plots, genesis, id)[h].plot.header.threadWork < plots[id].plot.header.threadWork
    decreases plots[id].plot.header.height
  {
    PathLength(plots, genesis, id);
    assert NodeOk(plots, genesis, id);
    PathStep(plots, genesis, id);
    var parent := plots[id].plot.header.previous;
    PathLength(plots, genesis, parent);
    if h < plots[parent].plot.header.height {
      AncestorWorkIsLess(plots, genesis, parent, h);
    }
  }
}
