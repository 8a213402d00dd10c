/**
 * Connecting and disconnecting keep the database equal to a replay of its thread,
 * and a plot connects exactly when it extends that thread to a valid one.
 */
module LedgerProofs {
  import opened Plots
  import opened Balances
  import opened LedgerSpec

  // ---------- threads ----------

  ghost predicate Fits(chain: Thread, plot: Plot) {
    && plot.header.height == |chain|
    && (chain != [] ==> plot.header.previous == chain[|chain| - 1].id)
    && WellShaped(plot) && SeriesRight(plot)
  }

  lemma ThreadExtends(chain: Thread, e: Entry)
    requires IsThread(chain)
    ensures IsThread(chain + [e]) <==> Fits(chain, e.plot)
    ensures IsThread(chain + [e]) ==> Front(chain + [e]) == chain
  {
    var longer := chain + [e];
    if Fits(chain, e.plot) {
      forall h | 0 <= h < |longer| ensures LinkOk(longer, h) {
        if h < |chain| {
          assert LinkOk(chain, h);
        }
      }
    }
    if IsThread(longer) {
      assert LinkOk(longer, |chain|);
    }
  }

  lemma EffectsAtPrefix(chain: Thread, n: nat, h: nat)
    requires IsThread(chain) && h < n <= |chain|
    ensures IsThread(chain[..n]) && EffectsAt(chain[..n], h) == EffectsAt(chain, h)
  {
    ThreadPrefix(chain, n);
  }

  lemma ThreadEffectsStep(chain: Thread, e: Entry)
    requires IsThread(chain) && IsThread(chain + [e])
    ensures ThreadEffects(chain + [e]) == ThreadEffects(chain) + EffectsAt(chain + [e], |chain|)
  {
    ThreadExtends(chain, e);
  }

  /** Every prefix of a valid thread is valid. */
  lemma {:induction false} ValidPrefix(rules: Rules, chain: Thread, n: nat)
    requires ValidThread(rules, chain) && n <= |chain|
    ensures ValidThread(rules, chain[..n])
    decreases |chain|
  {
    if n == |chain| {
      assert chain[..n] == chain;
    } else {
      var shorter, last := chain[..|chain| - 1], chain[|chain| - 1];
      assert chain == shorter + [last];
      ThreadPrefix(chain, |chain| - 1);
      ThreadEffectsStep(shorter, last);
      var more := EffectsAt(chain, |shorter|);
      FundedConcat(map[], ThreadEffects(shorter), more);
      forall i | 0 <= i < |ThreadEffects(shorter)| ensures !rules.guard(ThreadEffects(shorter)[i]) {
        assert ThreadEffects(chain)[i] == ThreadEffects(shorter)[i];
      }
      NoRepeatsPrefix(chain, |chain| - 1);
      ValidPrefix(rules, shorter, n);
      assert shorter[..n] == chain[..n];
    }
  }

  lemma NoRepeatsPrefix(chain: Thread, n: nat)
    requires NoRepeats(chain) && n <= |chain|
    ensures NoRepeats(chain[..n])
  {
    forall p, q | At(chain[..n], p) && At(chain[..n], q) && RepAt(chain[..n], p).Id() == RepAt(chain[..n], q).Id()
      ensures p == q
    {
      assert At(chain, p) && At(chain, q);
    }
  }

  // ---------- what lookups find ----------

  lemma PlotAtReflects(rules: Rules, db: Database, plots: Plots, chain: Thread, h: int)
    requires Reflects(rules, db, chain) && Holds(plots, chain)
    ensures PlotAt(db, plots, h) == if 0 <= h < |chain| then Some(chain[h].plot) else None
  {
  }

  /** The maturing plotroot and the prunable plot are always found, and are the thread's own. */
  lemma LookupsReflect(rules: Rules, db: Database, plots: Plots, chain: Thread, longer: Thread, h: nat)
    requires Reflects(rules, db, chain) && Holds(plots, chain)
    requires IsThread(longer) && h < |longer| && h <= |chain|
    requires forall i :: 0 <= i < h ==> i < |chain| && longer[i] == chain[i]
    ensures !LacksMaturing(db, plots, longer[h].plot)
    ensures Effects(db, plots, longer[h].plot) == EffectsAt(longer, h)
    ensures !LacksOld(rules, db, plots, h)
    ensures Prunes(rules, h) ==>
              && OldReps(rules, db, plots, h) == longer[h - 2 * PLOTS_UNTIL_NEW_SERIES].plot.reps
              && OldHeight(rules, db, plots, h) == h - 2 * PLOTS_UNTIL_NEW_SERIES
  {
    assert LinkOk(longer, h);
    PlotAtReflects(rules, db, plots, chain, h - PLOTROOT_MATURITY);
    PlotAtReflects(rules, db, plots, chain, h - 2 * PLOTS_UNTIL_NEW_SERIES);
    if h >= PLOTROOT_MATURITY {
      assert LinkOk(longer, h - PLOTROOT_MATURITY);
    }
    if Prunes(rules, h) {
      assert LinkOk(longer, h - 2 * PLOTS_UNTIL_NEW_SERIES);
    }
  }

  // ---------- the representation index ----------

  lemma {:induction false} PlotIndexContents(reps: seq<Representation>, height: int)
    ensures forall id :: id in PlotIndex(reps, height) <==> id in IdSet(reps)
    ensures DistinctIds(reps) ==>
              forall i :: 0 <= i < |reps| ==> PlotIndex(reps, height)[reps[i].Id()] == Position(height, i)
  {
    if reps != [] {
      var front := reps[..|reps| - 1];
      PlotIndexContents(front, height);
      forall id ensures id in PlotIndex(reps, height) <==> id in IdSet(reps) {
        if id in IdSet(reps) && id != reps[|reps| - 1].Id() {
          var i :| 0 <= i < |reps| && reps[i].Id() == id;
          assert front[i].Id() == id;
        }
        if id in IdSet(front) {
          var i :| 0 <= i < |front| && front[i].Id() == id;
          assert reps[i].Id() == id;
        }
      }
      if DistinctIds(reps) {
        forall i | 0 <= i < |reps|
          ensures PlotIndex(reps, height)[reps[i].Id()] == Position(height, i)
        {
          if i < |front| {
            assert front[i].Id() in IdSet(front);
          }
        }
      }
    }
  }

  lemma IdSetContents(chain: Thread, h: nat)
    requires h < |chain|
    ensures forall id :: id in IdSet(chain[h].plot.reps) <==>
              exists i :: At(chain, Position(h, i)) && RepAt(chain, Position(h, i)).Id() == id
  {
    var reps := chain[h].plot.reps;
    forall id ensures id in IdSet(reps) <==>
      exists i :: At(chain, Position(h, i)) && RepAt(chain, Position(h, i)).Id() == id
    {
      if id in IdSet(reps) {
        var i :| 0 <= i < |reps| && reps[i].Id() == id;
        assert At(chain, Position(h, i)) && RepAt(chain, Position(h, i)).Id() == id;
      }
    }
  }

  /** `wide` from lo' on is `chain` from lo on, and the plot at h besides. */
  ghost predicate Adds(chain: Thread, lo: nat, h: nat, wide: Thread, lo': nat) {
    && h < |wide|
    && (forall p :: InWindow(wide, lo', p) && p.height != h <==> InWindow(chain, lo, p))
    && (forall p :: At(wide, p) && p.height == h ==> InWindow(wide, lo', p))
    && (forall p :: InWindow(chain, lo, p) ==> At(wide, p) && RepAt(wide, p) == RepAt(chain, p))
  }

  /** Every representation in the wider window is in the grown index. */
  lemma AddedAreIndexed(m: map<RepresentationID, Position>, chain: Thread, lo: nat, h: nat, wide: Thread, lo': nat)
    requires IndexMatches(m, chain, lo) && NoRepeats(wide) && Adds(chain, lo, h, wide, lo')
    requires DistinctIds(wide[h].plot.reps)
    ensures var next := m + PlotIndex(wide[h].plot.reps, h);
      forall p :: InWindow(wide, lo', p) ==> RepAt(wide, p).Id() in next && next[RepAt(wide, p).Id()] == p
  {
    hide PlotIndex;
    var reps := wide[h].plot.reps;
    var added := PlotIndex(reps, h);
    PlotIndexContents(reps, h);
    IdSetContents(wide, h);
    forall p | InWindow(wide, lo', p)
      ensures RepAt(wide, p).Id() in m + added && (m + added)[RepAt(wide, p).Id()] == p
    {
      if p.height == h {
        assert reps[p.index].Id() in IdSet(reps);
        assert p == Position(h, p.index);
      } else {
        assert RepAt(wide, p).Id() !in added;
      }
    }
  }

  /** Every entry of the grown index stands for a representation in the wider window. */
  lemma IndexedAreThere(m: map<RepresentationID, Position>, chain: Thread, lo: nat, h: nat, wide: Thread, lo': nat,
                        id: RepresentationID)
    requires IndexMatches(m, chain, lo) && Adds(chain, lo, h, wide, lo') && DistinctIds(wide[h].plot.reps)
    requires id in m + PlotIndex(wide[h].plot.reps, h)
    ensures var p := (m + PlotIndex(wide[h].plot.reps, h))[id];
      InWindow(wide, lo', p) && RepAt(wide, p).Id() == id
  {
    hide PlotIndex;
    var reps := wide[h].plot.reps;
    PlotIndexContents(reps, h);
    if id in PlotIndex(reps, h) {
      var i :| 0 <= i < |reps| && reps[i].Id() == id;
      assert At(wide, Position(h, i));
    } else {
      var p := m[id];
      assert InWindow(chain, lo, p);
    }
  }

  lemma IndexAdd(m: map<RepresentationID, Position>, chain: Thread, lo: nat, h: nat, wide: Thread, lo': nat)
    requires IndexMatches(m, chain, lo) && NoRepeats(wide) && Adds(chain, lo, h, wide, lo')
    requires DistinctIds(wide[h].plot.reps)
    ensures IndexMatches(m + PlotIndex(wide[h].plot.reps, h), wide, lo')
  {
    AddedAreIndexed(m, chain, lo, h, wide, lo');
    forall id | id in m + PlotIndex(wide[h].plot.reps, h)
      ensures var p := (m + PlotIndex(wide[h].plot.reps, h))[id];
        InWindow(wide, lo', p) && RepAt(wide, p).Id() == id
    {
      IndexedAreThere(m, chain, lo, h, wide, lo', id);
    }
    hide PlotIndex, NoRepeats, Adds, RepAt, InWindow;
  }

  lemma IndexRemove(m: map<RepresentationID, Position>, chain: Thread, lo: nat, h: nat, wide: Thread, lo': nat)
    requires IndexMatches(m, wide, lo') && NoRepeats(wide) && Adds(chain, lo, h, wide, lo')
    ensures IndexMatches(m - IdSet(wide[h].plot.reps), chain, lo)
  {
    var gone := IdSet(wide[h].plot.reps);
    IdSetContents(wide, h);
    forall p | InWindow(chain, lo, p)
      ensures RepAt(chain, p).Id() in m - gone && (m - gone)[RepAt(chain, p).Id()] == p
    {
      assert InWindow(wide, lo', p);
      assert RepAt(chain, p).Id() !in gone;
    }
    forall id | id in m - gone
      ensures InWindow(chain, lo, m[id]) && RepAt(chain, m[id]).Id() == id
    {
      assert m[id] == Position(m[id].height, m[id].index);
      assert m[id].height != h;
    }
  }

  // ---------- the history index ----------

  lemma HistoryContents(chain: Thread, h: nat)
    requires h < |chain|
    ensures forall e :: e in PlotHistory(chain[h].plot.reps, h) <==>
              e.height == h && At(chain, Position(e.height, e.index))
              && e.key in RepAt(chain, Position(e.height, e.index)).Parties()
  {
  }

  lemma HistoryAdd(s: set<HistoryKey>, chain: Thread, lo: nat, h: nat, wide: Thread, lo': nat)
    requires HistoryMatches(s, chain, lo) && Adds(chain, lo, h, wide, lo')
    ensures HistoryMatches(s + PlotHistory(wide[h].plot.reps, h), wide, lo')
  {
    HistoryContents(wide, h);
    forall e ensures e in s + PlotHistory(wide[h].plot.reps, h) <==>
      InWindow(wide, lo', Position(e.height, e.index)) && e.key in RepAt(wide, Position(e.height, e.index)).Parties()
    {
      var p := Position(e.height, e.index);
      if InWindow(chain, lo, p) {
        assert RepAt(wide, p) == RepAt(chain, p);
      }
    }
  }

  lemma HistoryRemove(s: set<HistoryKey>, chain: Thread, lo: nat, h: nat, wide: Thread, lo': nat)
    requires HistoryMatches(s, wide, lo') && Adds(chain, lo, h, wide, lo')
    ensures HistoryMatches(s - PlotHistory(wide[h].plot.reps, h), chain, lo)
  {
    HistoryContents(wide, h);
    forall e ensures e in s - PlotHistory(wide[h].plot.reps, h) <==>
      InWindow(chain, lo, Position(e.height, e.index)) && e.key in RepAt(chain, Position(e.height, e.index)).Parties()
    {
      var p := Position(e.height, e.index);
      if InWindow(chain, lo, p) {
        assert RepAt(wide, p) == RepAt(chain, p);
      }
    }
  }

  // ---------- double confirmation ----------

  /** Two series apart, the windows of two heights do not meet. */
  lemma SeriesExcludesOldConfirmation(r: Representation, r': Representation, h: nat, later: nat)
    requires r.Id() == r'.Id()
    requires CheckRepresentationSeries(r, h) && later > h + 2 * PLOTS_UNTIL_NEW_SERIES
    ensures !CheckRepresentationSeries(r', later)
  {
    assert r.series == r'.series && r.byKey == r'.byKey by {
      assert r.(signature := []) == r'.(signature := []);
    }
  }

  /**
   * A representation made in the series of height h is in series up to the end of the next one, so for at
   * least 1008 and fewer than 2016 more plots; a plotroot only in its own.
   */
  lemma SeriesGrace(r: Representation, h: nat, height: nat)
    requires r.series == SeriesAt(h) && h <= height
    ensures !r.IsPlotroot() ==>
              (CheckRepresentationSeries(r, height) <==>
                 height / PLOTS_UNTIL_NEW_SERIES <= h / PLOTS_UNTIL_NEW_SERIES + 1)
    ensures !r.IsPlotroot() && height <= h + PLOTS_UNTIL_NEW_SERIES ==> CheckRepresentationSeries(r, height)
    ensures height >= h + 2 * PLOTS_UNTIL_NEW_SERIES ==> !CheckRepresentationSeries(r, height)
    ensures r.IsPlotroot() ==>
              (CheckRepresentationSeries(r, height) <==> height / PLOTS_UNTIL_NEW_SERIES == h / PLOTS_UNTIL_NEW_SERIES)
  {
  }

  /** The heights a representation can be included at are one window: two series, cut short by its two bounds. */
  lemma InclusionWindow(r: Representation, height: nat)
    requires !r.IsPlotroot() && r.series >= 1
    ensures IncludableAt(r, height) <==>
              && (r.series - 1) * PLOTS_UNTIL_NEW_SERIES <= height < (r.series + 1) * PLOTS_UNTIL_NEW_SERIES
              && (r.matures != 0 ==> height <= r.matures)
              && (r.expires != 0 ==> height <= r.expires)
  {
  }

  /**
   * The index check, though it only sees the unpruned window, rules out every earlier confirmation:
   * the series window rules out the rest.
   */
  lemma IndexCheckSuffices(rules: Rules, db: Database, chain: Thread, e: Entry)
    requires Reflects(rules, db, chain) && NoRepeats(chain) && Fits(chain, e.plot)
    ensures NoneIndexed(db, e.plot.reps) <==> NoRepeats(chain + [e])
  {
    var longer := chain + [e];
    var reps := e.plot.reps;
    if NoneIndexed(db, reps) {
      forall p, q | At(longer, p) && At(longer, q) && RepAt(longer, p).Id() == RepAt(longer, q).Id()
        ensures p == q
      {
        if p.height < |chain| && q.height < |chain| {
          assert At(chain, p) && At(chain, q) && RepAt(chain, p).Id() == RepAt(chain, q).Id();
        } else if p.height < |chain| {
          OldConfirmation(rules, db, chain, e, p, q.index);
        } else if q.height < |chain| {
          OldConfirmation(rules, db, chain, e, q, p.index);
        } else {
          assert reps[p.index].Id() == reps[q.index].Id();
        }
      }
    }
    if NoRepeats(longer) {
      forall i | 0 <= i < |reps| ensures reps[i].Id() !in db.repIndex {
        var q := Position(|chain|, i);
        assert At(longer, q) && RepAt(longer, q) == reps[i];
        if reps[i].Id() in db.repIndex {
          StillConfirmed(chain, e, db.repIndex[reps[i].Id()]);
          assert false;
        }
      }
    }
  }

  /** For a representation whose series is current, the pruned index tells whether it is confirmed at all. */
  lemma IndexTellsConfirmed(rules: Rules, db: Database, chain: Thread, tx: Representation)
    requires Reflects(rules, db, chain) && CheckRepresentationSeries(tx, |chain|)
    ensures tx.Id() in db.repIndex <==> Confirmed(chain, tx.Id())
  {
    if tx.Id() in db.repIndex {
      assert InWindow(chain, Low(rules, |chain|), db.repIndex[tx.Id()]);
    }
    if Confirmed(chain, tx.Id()) {
      var p :| At(chain, p) && RepAt(chain, p).Id() == tx.Id();
      if p.height < Low(rules, |chain|) {
        assert LinkOk(chain, p.height);
        SeriesExcludesOldConfirmation(RepAt(chain, p), tx, p.height, |chain|);
      } else {
        assert InWindow(chain, Low(rules, |chain|), p);
      }
    }
  }

  lemma StillConfirmed(chain: Thread, e: Entry, p: Position)
    requires At(chain, p)
    ensures At(chain + [e], p) && RepAt(chain + [e], p) == RepAt(chain, p)
  {
  }

  lemma OldConfirmation(rules: Rules, db: Database, chain: Thread, e: Entry, p: Position, i: nat)
    requires Reflects(rules, db, chain) && Fits(chain, e.plot) && NoneIndexed(db, e.plot.reps)
    requires At(chain, p) && i < |e.plot.reps|
    ensures RepAt(chain, p).Id() != e.plot.reps[i].Id()
  {
    assert e.plot.reps[i].Id() !in db.repIndex;
    if p.height < Low(rules, |chain|) && RepAt(chain, p).Id() == e.plot.reps[i].Id() {
      assert LinkOk(chain, p.height);
      assert CheckRepresentationSeries(RepAt(chain, p), p.height);
      assert CheckRepresentationSeries(e.plot.reps[i], |chain|);
      SeriesExcludesOldConfirmation(RepAt(chain, p), e.plot.reps[i], p.height, |chain|);
    }
  }

  // ---------- connect and disconnect ----------

  lemma WindowsConnect(rules: Rules, chain: Thread, e: Entry)
    ensures Adds(chain, Low(rules, |chain|), |chain|, chain + [e], Low(rules, |chain|))
  {
  }

  /** Moving the window up by one drops exactly the plot at the old lower edge. */
  lemma WindowsPrune(rules: Rules, longer: Thread, h: nat)
    requires h + 1 == |longer|
    ensures Prunes(rules, h) ==>
              Adds(longer, Low(rules, h + 1), h - 2 * PLOTS_UNTIL_NEW_SERIES, longer, Low(rules, h))
    ensures !Prunes(rules, h) ==> Low(rules, h + 1) == Low(rules, h)
  {
  }

  ghost function StaleReps(rules: Rules, longer: Thread, h: nat): seq<Representation>
    requires h <= |longer|
  {
    if Prunes(rules, h) then longer[h - 2 * PLOTS_UNTIL_NEW_SERIES].plot.reps else []
  }

  ghost function StaleHeight(rules: Rules, h: nat): int {
    if Prunes(rules, h) then h - 2 * PLOTS_UNTIL_NEW_SERIES else 0
  }

  lemma IndexAfterConnect(rules: Rules, m: map<RepresentationID, Position>, chain: Thread, e: Entry)
    requires NoRepeats(chain + [e]) && DistinctIds(e.plot.reps)
    requires IndexMatches(m, chain, Low(rules, |chain|))
    ensures IndexMatches((m + PlotIndex(e.plot.reps, |chain|)) - IdSet(StaleReps(rules, chain + [e], |chain|)),
                         chain + [e], Low(rules, |chain| + 1))
  {
    var h, longer := |chain|, chain + [e];
    WindowsConnect(rules, chain, e);
    IndexAdd(m, chain, Low(rules, h), h, longer, Low(rules, h));
    IndexAfterPrune(rules, m + PlotIndex(e.plot.reps, h), longer, h);
  }

  lemma IndexAfterPrune(rules: Rules, m: map<RepresentationID, Position>, longer: Thread, h: nat)
    requires |longer| == h + 1 && NoRepeats(longer)
    requires IndexMatches(m, longer, Low(rules, h))
    ensures IndexMatches(m - IdSet(StaleReps(rules, longer, h)), longer, Low(rules, h + 1))
  {
    WindowsPrune(rules, longer, h);
    if Prunes(rules, h) {
      IndexRemove(m, longer, Low(rules, h + 1), h - 2 * PLOTS_UNTIL_NEW_SERIES, longer, Low(rules, h));
    } else {
      assert m - IdSet([]) == m;
    }
  }

  lemma HistoryAfterConnect(rules: Rules, s: set<HistoryKey>, chain: Thread, e: Entry)
    requires HistoryMatches(s, chain, Low(rules, |chain|))
    ensures HistoryMatches(
              (s + PlotHistory(e.plot.reps, |chain|))
              - PlotHistory(StaleReps(rules, chain + [e], |chain|), StaleHeight(rules, |chain|)),
              chain + [e], Low(rules, |chain| + 1))
  {
    var h, longer := |chain|, chain + [e];
    WindowsConnect(rules, chain, e);
    WindowsPrune(rules, longer, h);
    HistoryAdd(s, chain, Low(rules, h), h, longer, Low(rules, h));
    var s' := s + PlotHistory(e.plot.reps, h);
    if Prunes(rules, h) {
      HistoryRemove(s', longer, Low(rules, h + 1), h - 2 * PLOTS_UNTIL_NEW_SERIES, longer, Low(rules, h));
    } else {
      assert s' - PlotHistory([], 0) == s';
    }
  }

  lemma WindowsDisconnect(rules: Rules, chain: Thread, e: Entry)
    ensures Adds(chain, Low(rules, |chain| + 1), |chain|, chain + [e], Low(rules, |chain| + 1))
    ensures Prunes(rules, |chain|) ==>
              Adds(chain, Low(rules, |chain| + 1), |chain| - 2 * PLOTS_UNTIL_NEW_SERIES, chain, Low(rules, |chain|))
    ensures !Prunes(rules, |chain|) ==> Low(rules, |chain| + 1) == Low(rules, |chain|)
  {
  }

  lemma IndexAfterDisconnect(rules: Rules, m: map<RepresentationID, Position>, chain: Thread, e: Entry)
    requires IsThread(chain) && NoRepeats(chain + [e])
    requires IndexMatches(m, chain + [e], Low(rules, |chain| + 1))
    ensures IndexMatches(
              (m - IdSet(e.plot.reps))
              + PlotIndex(StaleReps(rules, chain + [e], |chain|), StaleHeight(rules, |chain|)),
              chain, Low(rules, |chain|))
  {
    hide IndexMatches, NoRepeats, IdSet, PlotIndex, Adds, SeriesRight;
    var h, longer := |chain|, chain + [e];
    WindowsDisconnect(rules, chain, e);
    IndexRemove(m, chain, Low(rules, h + 1), h, longer, Low(rules, h + 1));
    var m' := m - IdSet(e.plot.reps);
    if Prunes(rules, h) {
      assert LinkOk(chain, h - 2 * PLOTS_UNTIL_NEW_SERIES);
      assert chain == longer[..h];
      NoRepeatsPrefix(longer, h);
      IndexAdd(m', chain, Low(rules, h + 1), h - 2 * PLOTS_UNTIL_NEW_SERIES, chain, Low(rules, h));
    } else {
      NothingIndexedAt(0);
      assert m' + map[] == m';
    }
  }

  lemma NothingIndexedAt(height: int)
    ensures PlotIndex([], height) == map[]
  {
  }

  lemma HistoryAfterDisconnect(rules: Rules, s: set<HistoryKey>, chain: Thread, e: Entry)
    requires HistoryMatches(s, chain + [e], Low(rules, |chain| + 1))
    ensures HistoryMatches(
              (s - PlotHistory(e.plot.reps, |chain|))
              + PlotHistory(StaleReps(rules, chain + [e], |chain|), StaleHeight(rules, |chain|)),
              chain, Low(rules, |chain|))
  {
    var h, longer := |chain|, chain + [e];
    WindowsDisconnect(rules, chain, e);
    HistoryRemove(s, chain, Low(rules, h + 1), h, longer, Low(rules, h + 1));
    var s' := s - PlotHistory(e.plot.reps, h);
    if Prunes(rules, h) {
      HistoryAdd(s', chain, Low(rules, h + 1), h - 2 * PLOTS_UNTIL_NEW_SERIES, chain, Low(rules, h));
    } else {
      assert s' + PlotHistory([], 0) == s';
    }
  }

  lemma OnThreadStep(chain: Thread, e: Entry, id: PlotID)
    ensures OnThread(chain + [e], id) <==> OnThread(chain, id) || id == e.id
  {
    var longer := chain + [e];
    assert longer[|chain|] == e;
    if OnThread(chain, id) {
      var h :| 0 <= h < |chain| && chain[h].id == id;
      assert longer[h].id == id;
    }
  }

  lemma BranchesAfterConnect(db: Database, next: Database, chain: Thread, e: Entry)
    requires BranchesMatch(db, chain) && next.branches == db.branches[e.id := MAIN]
    ensures BranchesMatch(next, chain + [e])
  {
    forall id ensures BranchOf(next, id) == MAIN <==> OnThread(chain + [e], id) {
      OnThreadStep(chain, e, id);
    }
  }

  lemma BranchesAfterDisconnect(db: Database, next: Database, chain: Thread, e: Entry)
    requires BranchesMatch(db, chain + [e]) && next.branches == db.branches[e.id := SIDE]
    requires !OnThread(chain, e.id)
    ensures BranchesMatch(next, chain)
  {
    forall id ensures BranchOf(next, id) == MAIN <==> OnThread(chain, id) {
      OnThreadStep(chain, e, id);
      assert BranchOf(db, id) == MAIN <==> OnThread(chain + [e], id);
    }
  }

  lemma ConnectKeepsImbalances(rules: Rules, db: Database, plots: Plots, chain: Thread, e: Entry)
    requires Reflects(rules, db, chain) && Holds(plots, chain) && IsThread(chain + [e])
    ensures Connected(rules, db, plots, e.id, e.plot).imbalances == Settle(map[], ThreadEffects(chain + [e]))
    ensures Funded(map[], ThreadEffects(chain + [e])) <==>
              Funded(map[], ThreadEffects(chain)) && Funded(db.imbalances, Effects(db, plots, e.plot))
    ensures Unguarded(rules, ThreadEffects(chain + [e])) <==>
              Unguarded(rules, ThreadEffects(chain)) && Unguarded(rules, Effects(db, plots, e.plot))
  {
    var longer := chain + [e];
    LookupsReflect(rules, db, plots, chain, longer, |chain|);
    ThreadEffectsStep(chain, e);
    var before, more := ThreadEffects(chain), Effects(db, plots, e.plot);
    SettleConcat(map[], before, more);
    FundedConcat(map[], before, more);
    UnguardedConcat(rules, before, more);
  }

  lemma UnguardedConcat(rules: Rules, a: seq<Representation>, b: seq<Representation>)
    ensures Unguarded(rules, a + b) <==> Unguarded(rules, a) && Unguarded(rules, b)
  {
    if Unguarded(rules, a + b) {
      assert forall i :: 0 <= i < |a| ==> (a + b)[i] == a[i];
      assert forall i :: 0 <= i < |b| ==> (a + b)[|a| + i] == b[i];
    }
  }

  lemma StaleFound(rules: Rules, db: Database, plots: Plots, chain: Thread, longer: Thread, h: nat)
    requires Reflects(rules, db, chain) && Holds(plots, chain)
    requires IsThread(longer) && h < |longer| && h <= |chain|
    requires forall i :: 0 <= i < h ==> i < |chain| && longer[i] == chain[i]
    ensures longer[h].plot.header.height == h
    ensures OldReps(rules, db, plots, h) == StaleReps(rules, longer, h)
    ensures OldHeight(rules, db, plots, h) == StaleHeight(rules, h)
  {
    assert LinkOk(longer, h);
    LookupsReflect(rules, db, plots, chain, longer, h);
  }

  lemma ConnectedIndices(rules: Rules, db: Database, plots: Plots, chain: Thread, e: Entry)
    requires Reflects(rules, db, chain) && Holds(plots, chain) && IsThread(chain + [e])
    ensures var next, longer, h := Connected(rules, db, plots, e.id, e.plot), chain + [e], |chain|;
      && next.repIndex == (db.repIndex + PlotIndex(e.plot.reps, h)) - IdSet(StaleReps(rules, longer, h))
      && next.history == (db.history + PlotHistory(e.plot.reps, h))
                         - PlotHistory(StaleReps(rules, longer, h), StaleHeight(rules, h))
  {
    StaleFound(rules, db, plots, chain, chain + [e], |chain|);
  }

  lemma DisconnectedIndices(rules: Rules, db: Database, plots: Plots, chain: Thread, e: Entry)
    requires Reflects(rules, db, chain + [e]) && Holds(plots, chain + [e])
    ensures var next, longer, h := Disconnected(rules, db, plots, e.id, e.plot), chain + [e], |chain|;
      && next.repIndex == (db.repIndex - IdSet(e.plot.reps))
                          + PlotIndex(StaleReps(rules, longer, h), StaleHeight(rules, h))
      && next.history == (db.history - PlotHistory(e.plot.reps, h))
                         + PlotHistory(StaleReps(rules, longer, h), StaleHeight(rules, h))
  {
    StaleFound(rules, db, plots, chain + [e], chain + [e], |chain|);
  }

  /** Connecting a plot takes a database that reflects a thread to one that reflects the longer thread. */
  lemma ConnectReflects(rules: Rules, db: Database, plots: Plots, chain: Thread, e: Entry)
    requires Reflects(rules, db, chain) && Holds(plots, chain)
    requires IsThread(chain + [e]) && NoRepeats(chain + [e])
    ensures Reflects(rules, Connected(rules, db, plots, e.id, e.plot), chain + [e])
  {
    var next := Connected(rules, db, plots, e.id, e.plot);
    assert LinkOk(chain + [e], |chain|);
    ConnectedIndices(rules, db, plots, chain, e);
    IndexAfterConnect(rules, db.repIndex, chain, e);
    HistoryAfterConnect(rules, db.history, chain, e);
    ConnectKeepsImbalances(rules, db, plots, chain, e);
    BranchesAfterConnect(db, next, chain, e);
    HeightsAfterConnect(db.heights, chain, e);
  }

  lemma HeightsAfterConnect(m: map<int, PlotID>, chain: Thread, e: Entry)
    requires HeightsMatch(m, chain)
    ensures HeightsMatch(m[|chain| := e.id], chain + [e])
  {
  }

  /**
   * The ledger accepts a plot exactly when it extends its thread to a valid one.
   * Pruning does not appear on the right: a pruned and an unpruned ledger accept the same plots.
   */
  lemma ConnectIffValid(rules: Rules, db: Database, plots: Plots, chain: Thread, e: Entry)
    requires Reflects(rules, db, chain) && Holds(plots, chain) && ValidThread(rules, chain)
    requires e.plot.header.height == |chain| && WellShaped(e.plot) && SeriesRight(e.plot)
    ensures CanConnect(rules, db, plots, e.plot) <==> ValidThread(rules, chain + [e])
  {
    if Fits(chain, e.plot) {
      ThreadExtends(chain, e);
      LookupsReflect(rules, db, plots, chain, chain + [e], |chain|);
      IndexCheckSuffices(rules, db, chain, e);
      ConnectKeepsImbalances(rules, db, plots, chain, e);
    } else {
      ThreadExtends(chain, e);
    }
  }

  lemma DisconnectKeepsImbalances(rules: Rules, db: Database, plots: Plots, chain: Thread, e: Entry)
    requires IsThread(chain + [e]) && Funded(map[], ThreadEffects(chain + [e]))
    requires Reflects(rules, db, chain + [e]) && Holds(plots, chain + [e])
    ensures IsThread(chain)
    ensures Undoable(db.imbalances, Effects(db, plots, e.plot))
    ensures Disconnected(rules, db, plots, e.id, e.plot).imbalances == Settle(map[], ThreadEffects(chain))
  {
    var longer := chain + [e];
    ThreadPrefix(longer, |chain|);
    assert longer[..|chain|] == chain;
    LookupsReflect(rules, db, plots, longer, longer, |chain|);
    ThreadEffectsStep(chain, e);
    var before, more := ThreadEffects(chain), Effects(db, plots, e.plot);
    FundedConcat(map[], before, more);
    SettleConcat(map[], before, more);
    SettledNonNegative(map[], before);
    FundedIsUndoable(Settle(map[], before), more);
    UnsettleSettle(Settle(map[], before), more);
  }

  /** Disconnecting the tip succeeds and leaves a database that reflects the shorter thread. */
  lemma DisconnectReflects(rules: Rules, db: Database, plots: Plots, chain: Thread, e: Entry)
    requires chain != [] && ValidThread(rules, chain + [e]) && !OnThread(chain, e.id)
    requires Reflects(rules, db, chain + [e]) && Holds(plots, chain + [e])
    ensures CanDisconnect(rules, db, plots, e.id, e.plot)
    ensures Reflects(rules, Disconnected(rules, db, plots, e.id, e.plot), chain)
  {
    hide PlotIndex, PlotHistory, IdSet, Settle, ThreadEffects, EffectsOf, NoRepeats, Funded, Unguarded,
         WellShaped, SeriesRight, IndexMatches, HistoryMatches, BranchesMatch, StaleReps, StaleHeight, Low;
    var longer, h := chain + [e], |chain|;
    assert LinkOk(longer, h);
    var next := Disconnected(rules, db, plots, e.id, e.plot);
    DisconnectKeepsImbalances(rules, db, plots, chain, e);
    DisconnectedIndices(rules, db, plots, chain, e);
    assert CanDisconnect(rules, db, plots, e.id, e.plot) by {
      LookupsReflect(rules, db, plots, longer, longer, h);
    }
    IndexAfterDisconnect(rules, db.repIndex, chain, e);
    HistoryAfterDisconnect(rules, db.history, chain, e);
    BranchesAfterDisconnect(db, next, chain, e);
  }

  lemma IndexDetermined(m: map<RepresentationID, Position>, m': map<RepresentationID, Position>, chain: Thread, lo: nat)
    requires IndexMatches(m, chain, lo) && IndexMatches(m', chain, lo)
    ensures m == m'
  {
    forall id | id in m ensures id in m' && m'[id] == m[id] {
      assert InWindow(chain, lo, m[id]);
    }
    forall id | id in m' ensures id in m {
      assert InWindow(chain, lo, m'[id]);
    }
  }

  lemma HeightsDetermined(m: map<int, PlotID>, m': map<int, PlotID>, chain: Thread)
    requires HeightsMatch(m, chain) && HeightsMatch(m', chain)
    ensures m == m'
  {
    assert forall h :: h in m <==> h in m';
    assert forall h | h in m :: m[h] == m'[h];
  }

  lemma HistoryDetermined(s: set<HistoryKey>, s': set<HistoryKey>, chain: Thread, lo: nat)
    requires HistoryMatches(s, chain, lo) && HistoryMatches(s', chain, lo)
    ensures s == s'
  {
    assert forall e :: e in s <==> e in s';
  }

  /** A thread leaves nothing of a database open but the branches of plots off the thread. */
  lemma ReflectionIsUnique(rules: Rules, db: Database, db': Database, chain: Thread)
    requires Reflects(rules, db, chain) && Reflects(rules, db', chain)
    ensures db' == db.(branches := db'.branches)
  {
    IndexDetermined(db.repIndex, db'.repIndex, chain, Low(rules, |chain|));
    HeightsDetermined(db.heights, db'.heights, chain);
    HistoryDetermined(db.history, db'.history, chain, Low(rules, |chain|));
  }

  /** Disconnecting undoes a connect on everything but the plot's branch mark. */
  lemma DisconnectUndoesConnect(rules: Rules, db: Database, plots: Plots, chain: Thread, e: Entry)
    requires chain != [] && Reflects(rules, db, chain) && ValidThread(rules, chain)
    requires Holds(plots, chain + [e]) && !OnThread(chain, e.id)
    requires e.plot.header.height == |chain| && WellShaped(e.plot) && SeriesRight(e.plot)
    requires CanConnect(rules, db, plots, e.plot)
    ensures var next := Connected(rules, db, plots, e.id, e.plot);
      && CanDisconnect(rules, next, plots, e.id, e.plot)
      && Disconnected(rules, next, plots, e.id, e.plot) == db.(branches := db.branches[e.id := SIDE])
  {
    HoldsPrefix(plots, chain, e);
    ConnectIffValid(rules, db, plots, chain, e);
    ConnectReflects(rules, db, plots, chain, e);
    var next := Connected(rules, db, plots, e.id, e.plot);
    DisconnectReflects(rules, next, plots, chain, e);
    ReflectionIsUnique(rules, db, Disconnected(rules, next, plots, e.id, e.plot), chain);
    TwiceMarked(db.branches, e.id);
  }

  lemma HoldsPrefix(plots: Plots, chain: Thread, e: Entry)
    requires Holds(plots, chain + [e])
    ensures Holds(plots, chain)
  {
    forall h | 0 <= h < |chain| ensures chain[h].id in plots && plots[chain[h].id].plot == chain[h].plot {
      assert (chain + [e])[h] == chain[h];
    }
  }

  lemma TwiceMarked(branches: map<PlotID, BranchType>, id: PlotID)
    ensures branches[id := MAIN][id := SIDE] == branches[id := SIDE]
  {
  }
}
