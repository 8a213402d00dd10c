/** The plot store, the imbalance cache and the on-disk ledger, proved against LedgerSpec. */
module LedgerDisk {
  import opened Plots
  import opened Balances
  import opened LedgerSpec
  import opened LedgerProofs
  import opened Conservation
  import opened Sums

  datatype LedgerError =
    | TipMismatch
    | AlreadyProcessed(id: RepresentationID)
    | MissingPlot(height: int)
    | InsufficientImbalance(tx: Representation)
    | SenderIsDescendant(tx: Representation)
    | RecipientWentNegative(tx: Representation)

  datatype Result<+T, +E> = Ok(value: T) | Err(error: E)

  class PlotStorage {
    var plots: Plots

    constructor ()
      ensures plots == map[]
    {
      plots := map[];
    }

    method Store(id: PlotID, plot: Plot, now: int)
      modifies this
      ensures plots == old(plots)[id := Stored(plot, now)]
    {
      plots := plots[id := Stored(plot, now)];
    }

    function GetPlot(id: PlotID): Option<Plot>
      reads this
    {
      if id in plots then Some(plots[id].plot) else None
    }

    function GetPlotHeader(id: PlotID): Option<PlotHeader>
      reads this
    {
      if id in plots then Some(plots[id].plot.header) else None
    }

    function GetRepresentation(id: PlotID, index: int): Option<Representation>
      reads this
    {
      if id in plots && 0 <= index < |plots[id].plot.reps| then Some(plots[id].plot.reps[index]) else None
    }
  }

  class ImbalanceCache {
    const ledger: LedgerDisk
    var cache: map<PubKey, int>

    constructor (ledger: LedgerDisk)
      ensures this.ledger == ledger && cache == map[]
    {
      this.ledger := ledger;
      cache := map[];
    }

    /** The imbalance the cache stands for: its own entry, or else what the ledger has. */
    function View(k: PubKey): int
      reads this, ledger
    {
      if k in cache then cache[k] else ledger.GetPublicKeyImbalance(k)
    }

    method Reset()
      modifies this
      ensures cache == map[]
      ensures forall k :: View(k) == ledger.GetPublicKeyImbalance(k)
    {
      cache := map[];
    }

    /** Refuses without any effect exactly when the sender holds nothing. */
    method Apply(tx: Representation) returns (ok: bool)
      modifies this
      ensures ok <==> (tx.byKey.Some? ==> old(View(tx.byKey.value)) >= 1)
      ensures ok ==> forall k :: View(k) == old(View(k)) + Delta(tx, k)
      ensures !ok ==> cache == old(cache)
    {
      if !tx.IsPlotroot() {
        var sender := View(tx.byKey.value);
        if sender < 1 {
          return false;
        }
        cache := cache[tx.byKey.value := sender - 1];
      }
      cache := cache[tx.forKey := View(tx.forKey) + 1];
      return true;
    }

    /** Panics (returns false) exactly when the recipient, after the sender's credit, holds nothing. */
    method Undo(tx: Representation) returns (ok: bool)
      modifies this
      ensures ok <==> old(View(tx.forKey)) + (if tx.byKey == Some(tx.forKey) then 1 else 0) >= 1
      ensures ok ==> forall k :: View(k) == old(View(k)) - Delta(tx, k)
    {
      if !tx.IsPlotroot() {
        cache := cache[tx.byKey.value := View(tx.byKey.value) + 1];
      }
      var recipient := View(tx.forKey);
      if recipient < 1 {
        return false;
      }
      cache := cache[tx.forKey := recipient - 1];
      return true;
    }
  }

  /** What each refusal says about the plot and the ledger that refused it. */
  ghost predicate Justified(error: LedgerError, rules: Rules, db: Database, plots: Plots, plot: Plot) {
    match error
    case TipMismatch => db.tip.Some? && db.tip.value.id != plot.header.previous
    case AlreadyProcessed(id) => id in db.repIndex && id in IdSet(plot.reps)
    case MissingPlot(height) => LacksMaturing(db, plots, plot) || LacksOld(rules, db, plots, plot.header.height)
    case InsufficientImbalance(tx) => tx in Effects(db, plots, plot) && !Funded(db.imbalances, Effects(db, plots, plot))
    case SenderIsDescendant(tx) => tx in Effects(db, plots, plot) && rules.guard(tx)
    case RecipientWentNegative(_) => false
  }

  // ---------- steps of the loops ----------

  lemma {:induction false} EffectsConcat(a: seq<Representation>, b: seq<Representation>,
                                         maturing: Option<Representation>)
    ensures EffectsOf(a + b, maturing) == EffectsOf(a, maturing) + EffectsOf(b, maturing)
  {
    hide EffectOf;
    if b == [] {
      assert a + b == a;
    } else {
      EffectsConcat(a, b[..|b| - 1], maturing);
      assert (a + b)[..|a + b| - 1] == a + b[..|b| - 1];
    }
  }

  /** Representations that are not plotroots apply as they are. */
  lemma {:induction false} PlainEffects(reps: seq<Representation>, maturing: Option<Representation>)
    requires forall r :: r in reps ==> !r.IsPlotroot()
    ensures EffectsOf(reps, maturing) == reps
  {
    if reps != [] {
      PlainEffects(reps[..|reps| - 1], maturing);
    }
  }

  lemma NextEffects(root: Representation, rest: seq<Representation>, maturing: Option<Representation>)
    requires root.IsPlotroot() && forall r :: r in rest ==> !r.IsPlotroot()
    ensures EffectsOf([root] + rest, maturing) == (if maturing.Some? then [maturing.value] else []) + rest
  {
    EffectsConcat([root], rest, maturing);
    PlainEffects(rest, maturing);
    EffectsOfOne(root, maturing);
    hide EffectsOf;
  }

  lemma EffectsUpTo(reps: seq<Representation>, i: nat, maturing: Option<Representation>)
    requires i < |reps|
    ensures EffectsOf(reps[..i + 1], maturing) == EffectsOf(reps[..i], maturing) + EffectOf(reps[i], maturing)
    ensures EffectsOf(reps, maturing) == EffectsOf(reps[..i + 1], maturing) + EffectsOf(reps[i + 1..], maturing)
  {
    assert reps[..i + 1][..i] == reps[..i];
    assert reps == reps[..i + 1] + reps[i + 1..];
    EffectsConcat(reps[..i + 1], reps[i + 1..], maturing);
  }

  lemma EffectsFrom(reps: seq<Representation>, i: nat, maturing: Option<Representation>)
    requires i < |reps|
    ensures EffectsOf(reps[i..], maturing) == EffectOf(reps[i], maturing) + EffectsOf(reps[i + 1..], maturing)
    ensures EffectsOf(reps, maturing) == EffectsOf(reps[..i], maturing) + EffectsOf(reps[i..], maturing)
  {
    hide *;
    assert reps[i..] == [reps[i]] + reps[i + 1..];
    EffectsConcat([reps[i]], reps[i + 1..], maturing);
    assert reps == reps[..i] + reps[i..];
    EffectsConcat(reps[..i], reps[i..], maturing);
    EffectsOfOne(reps[i], maturing);
  }

  lemma EffectsOfOne(r: Representation, maturing: Option<Representation>)
    ensures EffectsOf([r], maturing) == EffectOf(r, maturing)
  {
    assert [r][..0] == [];
  }

  lemma IndexStep(reps: seq<Representation>, i: nat, height: int)
    requires i < |reps|
    ensures PlotIndex(reps[..i + 1], height) == PlotIndex(reps[..i], height)[reps[i].Id() := Position(height, i)]
    ensures IdSet(reps[..i + 1]) == IdSet(reps[..i]) + {reps[i].Id()}
  {
    assert reps[..i + 1][..i] == reps[..i];
    assert reps[..i + 1][i] == reps[i];
    forall id | id in IdSet(reps[..i]) ensures id in IdSet(reps[..i + 1]) {
      var j :| 0 <= j < i && reps[..i][j].Id() == id;
      assert reps[..i + 1][j].Id() == id;
    }
    forall id | id in IdSet(reps[..i + 1]) ensures id in IdSet(reps[..i]) + {reps[i].Id()} {
      var j :| 0 <= j < i + 1 && reps[..i + 1][j].Id() == id;
      if j < i {
        assert reps[..i][j].Id() == id;
      }
    }
  }

  lemma IdsFrom(reps: seq<Representation>, i: nat)
    requires i < |reps|
    ensures IdSet(reps[i..]) == IdSet(reps[i + 1..]) + {reps[i].Id()}
  {
    assert reps[i..][0] == reps[i];
    forall id | id in IdSet(reps[i + 1..]) ensures id in IdSet(reps[i..]) {
      var j :| 0 <= j < |reps| - i - 1 && reps[i + 1..][j].Id() == id;
      assert reps[i..][j + 1].Id() == id;
    }
    forall id | id in IdSet(reps[i..]) ensures id in IdSet(reps[i + 1..]) + {reps[i].Id()} {
      var j :| 0 <= j < |reps| - i && reps[i..][j].Id() == id;
      if j > 0 {
        assert reps[i + 1..][j - 1].Id() == id;
      }
    }
  }

  function PartyKeys(r: Representation, height: int, i: int): set<HistoryKey> {
    set k | k in r.Parties() :: HistoryKey(k, height, i)
  }

  function HistoryFrom(reps: seq<Representation>, height: int, from: nat): set<HistoryKey> {
    set i, k | from <= i < |reps| && k in reps[i].Parties() :: HistoryKey(k, height, i)
  }

  lemma HistoryStep(reps: seq<Representation>, i: nat, height: int)
    requires i < |reps|
    ensures PlotHistory(reps[..i + 1], height) == PlotHistory(reps[..i], height) + PartyKeys(reps[i], height, i)
    ensures HistoryFrom(reps, height, i) == HistoryFrom(reps, height, i + 1) + PartyKeys(reps[i], height, i)
  {
  }

  lemma IndexBatchStep(m: map<RepresentationID, Position>, s: set<HistoryKey>, reps: seq<Representation>, i: nat,
                       h: int)
    requires i < |reps|
    ensures m + PlotIndex(reps[..i + 1], h) == (m + PlotIndex(reps[..i], h))[reps[i].Id() := Position(h, i)]
    ensures s + PlotHistory(reps[..i + 1], h) == s + PlotHistory(reps[..i], h) + PartyKeys(reps[i], h, i)
  {
    IndexStep(reps, i, h);
    HistoryStep(reps, i, h);
  }

  class LedgerDisk {
    const plotStore: PlotStorage
    const rules: Rules
    var db: Database

    constructor (plotStore: PlotStorage, rules: Rules)
      ensures this.plotStore == plotStore && this.rules == rules && db == EmptyDatabase
    {
      this.plotStore := plotStore;
      this.rules := rules;
      db := EmptyDatabase;
    }

    predicate Valid()
      reads this
    {
      NoZeros(db.imbalances)
    }

    function GetThreadTip(): Option<Tip>
      reads this
    {
      db.tip
    }

    function GetPlotIDForHeight(height: int): Option<PlotID>
      reads this
    {
      if height in db.heights then Some(db.heights[height]) else None
    }

    function GetBranchType(id: PlotID): BranchType
      reads this
    {
      BranchOf(db, id)
    }

    function GetPublicKeyImbalance(k: PubKey): int
      reads this
    {
      Bal(db.imbalances, k)
    }

    /** The main thread plot a representation was confirmed in, through the height index. */
    function GetRepresentationIndex(id: RepresentationID): Option<PlotID>
      reads this
    {
      if id in db.repIndex then GetPlotIDForHeight(db.repIndex[id].height) else None
    }

    method SetBranchType(id: PlotID, branchType: BranchType)
      modifies this
      ensures db == old(db).(branches := old(db).branches[id := branchType])
    {
      db := db.(branches := db.branches[id := branchType]);
    }

    /** The total of all stored imbalances, met in an arbitrary order. */
    method Imbalance() returns (total: int)
      ensures total == Total(db.imbalances)
    {
      total := 0;
      var keys := db.imbalances.Keys;
      ghost var value := StoredBalance(db.imbalances);
      while keys != {}
        invariant keys <= db.imbalances.Keys
        invariant total as real + Sum(keys, value) == Sum(db.imbalances.Keys, value)
        decreases keys
      {
        var k :| k in keys;
        SumTake(keys, k, value);
        total := total + db.imbalances[k];
        keys := keys - {k};
      }
    }

    /** Writes the cached imbalances, deleting the zeros, in an arbitrary order. */
    method RecordImbalances(cache: ImbalanceCache) returns (imbalances: Imbalances)
      requires Valid() && cache.ledger == this
      ensures NoZeros(imbalances)
      ensures forall k :: Bal(imbalances, k) == cache.View(k)
    {
      imbalances := db.imbalances;
      var entries := cache.cache;
      var keys := entries.Keys;
      while keys != {}
        invariant keys <= entries.Keys && NoZeros(imbalances)
        invariant forall k ::
          Bal(imbalances, k) == if k in entries && k !in keys then entries[k] else Bal(db.imbalances, k)
        decreases keys
      {
        var k :| k in keys;
        imbalances := if entries[k] == 0 then imbalances - {k} else imbalances[k := entries[k]];
        keys := keys - {k};
      }
    }

    /** The plot on the main thread at `height`, by the height index and then the store. */
    function OldPlot(height: int): (stale: Option<Plot>)
      reads this, plotStore
      ensures stale == PlotAt(db, plotStore.plots, height)
    {
      match GetPlotIDForHeight(height)
      case None => None
      case Some(id) => plotStore.GetPlot(id)
    }

    /** The representation that stands for tx when it is applied: a plotroot's is the one maturing now. */
    function ToApply(tx: Representation, height: int): (r: Result<Option<Representation>, LedgerError>)
      reads this, plotStore
      ensures var maturing := Maturing(db, plotStore.plots, height);
        && (r.Err? <==> tx.IsPlotroot() && height - PLOTROOT_MATURITY >= 0 && maturing.None?)
        && (r.Err? ==> r.error == MissingPlot(height - PLOTROOT_MATURITY))
        && (r.Ok? ==> EffectOf(tx, maturing) == if r.value.Some? then [r.value.value] else [])
    {
      if !tx.IsPlotroot() then Ok(Some(tx))
      else if height - PLOTROOT_MATURITY < 0 then Ok(None)
      else
        match OldPlot(height - PLOTROOT_MATURITY)
        case None => Err(MissingPlot(height - PLOTROOT_MATURITY))
        case Some(plot) =>
          if |plot.reps| > 0 then Ok(Some(plot.reps[0])) else Err(MissingPlot(height - PLOTROOT_MATURITY))
    }

    /** Deletes the indices the plot at `height` created from the batch. */
    method PruneIndices(height: int, batch: Database) returns (r: Result<Database, LedgerError>)
      ensures var stale := PlotAt(db, plotStore.plots, height);
        && (r.Err? <==> stale.None?) && (r.Err? ==> r.error == MissingPlot(height))
        && (r.Ok? ==> r.value == batch.(
              repIndex := batch.repIndex - IdSet(stale.value.reps),
              history := batch.history - PlotHistory(stale.value.reps, stale.value.header.height)))
    {
      var found := OldPlot(height);
      if found.None? {
        return Err(MissingPlot(height));
      }
      hide IdSet, PlotHistory, PlotIndex;
      var reps, h := found.value.reps, found.value.header.height;
      NothingPrunedYet(reps, h);
      var pruned := batch;
      for i := 0 to |reps|
        invariant pruned == batch.(repIndex := batch.repIndex - IdSet(reps[..i]),
                                   history := batch.history - PlotHistory(reps[..i], h))
      {
        IndexStep(reps, i, h);
        HistoryStep(reps, i, h);
        pruned := pruned.(repIndex := pruned.repIndex - {reps[i].Id()},
                          history := pruned.history - PartyKeys(reps[i], h, i));
      }
      assert reps[..|reps|] == reps;
      return Ok(pruned);
    }

    /** Applies to the cache what stands for tx, or says why the ledger refuses it. */
    method ApplyRepresentation(tx: Representation, height: int, cache: ImbalanceCache,
                               ghost before: seq<Representation>)
      returns (refusal: Option<LedgerError>)
      requires cache.ledger == this
      requires Shows(cache, db.imbalances, before)
      modifies cache
      ensures var maturing := Maturing(db, plotStore.plots, height);
        && (refusal.None? <==> Acceptable(rules, db.imbalances, maturing, before, tx, height))
        && (refusal.None? ==> Shows(cache, db.imbalances, before + EffectOf(tx, maturing)))
        && (refusal.Some? ==> RefusalFits(rules, db.imbalances, maturing, before, tx, height, refusal.value))
    {
      hide MaturingAt;
      var toApply := ToApply(tx, height);
      if toApply.Err? {
        return Some(toApply.error);
      }
      if toApply.value.None? {
        assert before + [] == before;
        return None;
      }
      var effect := toApply.value.value;
      assert effect in EffectOf(tx, Maturing(db, plotStore.plots, height));
      NetGrows(before, effect);
      var ok := cache.Apply(effect);
      if !ok {
        return Some(InsufficientImbalance(effect));
      }
      if rules.guard(effect) {
        return Some(SenderIsDescendant(effect));
      }
      return None;
    }

    /** Applies every representation of the plot to a fresh cache and indexes it in a batch. */
    method ConnectRepresentations(plot: Plot)
      returns (r: Result<(map<RepresentationID, Position>, set<HistoryKey>), LedgerError>, cache: ImbalanceCache)
      requires Valid()
      ensures cache.ledger == this && fresh(cache)
      ensures r.Err? <==> Refused(rules, db, plotStore.plots, plot)
      ensures r.Err? ==> Justified(r.error, rules, db, plotStore.plots, plot)
      ensures r.Ok? ==> Shows(cache, db.imbalances, Effects(db, plotStore.plots, plot))
      ensures r.Ok? ==> r.value == (db.repIndex + PlotIndex(plot.reps, plot.header.height),
                                    db.history + PlotHistory(plot.reps, plot.header.height))
    {
      hide Refused, RefusedUpTo, Justified, Maturing, PlotHistory, PlotIndex, Acceptable;
      var height, reps := plot.header.height, plot.reps;
      ghost var maturing := Maturing(db, plotStore.plots, height);
      var repIndex, history := db.repIndex, db.history;
      cache := new ImbalanceCache(this);
      NothingRefused(rules, db, plotStore.plots, plot);
      NothingIndexed(reps, height);
      for i := 0 to |reps|
        invariant db == old(db) && cache.ledger == this && fresh(cache)
        invariant repIndex == db.repIndex + PlotIndex(reps[..i], height)
        invariant history == db.history + PlotHistory(reps[..i], height)
        invariant !RefusedUpTo(rules, db, plotStore.plots, plot, i)
        invariant Shows(cache, db.imbalances, EffectsOf(reps[..i], maturing))
      {
        var tx := reps[i];
        ghost var before := EffectsOf(reps[..i], maturing);
        RefusedStep(rules, db, plotStore.plots, plot, i);
        RefusedPrefix(rules, db, plotStore.plots, plot, i);
        if tx.Id() in db.repIndex {
          RefusalJustified(rules, db, plotStore.plots, plot, i, AlreadyProcessed(tx.Id()));
          return Err(AlreadyProcessed(tx.Id())), cache;
        }
        var refusal := ApplyRepresentation(tx, height, cache, before);
        if refusal.Some? {
          RefusalJustified(rules, db, plotStore.plots, plot, i, refusal.value);
          return Err(refusal.value), cache;
        }
        EffectsUpTo(reps, i, maturing);
        IndexBatchStep(db.repIndex, db.history, reps, i, height);
        repIndex := repIndex[tx.Id() := Position(height, i)];
        history := history + PartyKeys(tx, height, i);
      }
      assert reps[..|reps|] == reps;
      return Ok((repIndex, history)), cache;
    }

    /** Connects the plot at the tip, or refuses and leaves the database alone. */
    method ConnectPlot(id: PlotID, plot: Plot) returns (r: Result<seq<RepresentationID>, LedgerError>)
      requires Valid()
      modifies this
      ensures Valid()
      ensures r.Ok? <==> CanConnect(rules, old(db), plotStore.plots, plot)
      ensures r.Ok? ==> db == Connected(rules, old(db), plotStore.plots, id, plot) && r.value == Ids(plot.reps)
      ensures r.Err? ==> db == old(db) && Justified(r.error, rules, old(db), plotStore.plots, plot)
    {
      hide PlotIndex, PlotHistory, IdSet, Settle, EffectsOf, Funded, Unguarded, NoneIndexed, LacksMaturing;
      if db.tip.Some? && db.tip.value.id != plot.header.previous {
        return Err(TipMismatch);
      }
      var height := plot.header.height;
      var applied, cache := ConnectRepresentations(plot);
      if applied.Err? {
        return Err(applied.error);
      }
      var imbalances := RecordImbalances(cache);
      SettledView(db.imbalances, imbalances, Effects(db, plotStore.plots, plot));
      var batch := Database(Some(Tip(id, height)), db.branches[id := MAIN], db.heights[height := id],
                            applied.value.0, applied.value.1, imbalances);
      if Prunes(rules, height) {
        var pruned := PruneIndices(height - 2 * PLOTS_UNTIL_NEW_SERIES, batch);
        if pruned.Err? {
          return Err(pruned.error);
        }
        batch := pruned.value;
      } else {
        NothingPruned(batch);
      }
      db := batch;
      return Ok(Ids(plot.reps));
    }

    /** Puts back in the batch the indices the plot at `height` created. */
    method RestoreIndices(height: int, batch: Database) returns (r: Result<Database, LedgerError>)
      ensures var stale := PlotAt(db, plotStore.plots, height);
        && (r.Err? <==> stale.None?) && (r.Err? ==> r.error == MissingPlot(height))
        && (r.Ok? ==> r.value == batch.(
              repIndex := batch.repIndex + PlotIndex(stale.value.reps, stale.value.header.height),
              history := batch.history + PlotHistory(stale.value.reps, stale.value.header.height)))
    {
      var found := OldPlot(height);
      if found.None? {
        return Err(MissingPlot(height));
      }
      var reps, h := found.value.reps, found.value.header.height;
      var repIndex, history := batch.repIndex, batch.history;
      for i := 0 to |reps|
        invariant repIndex == batch.repIndex + PlotIndex(reps[..i], h)
        invariant history == batch.history + PlotHistory(reps[..i], h)
      {
        IndexBatchStep(batch.repIndex, batch.history, reps, i, h);
        repIndex := repIndex[reps[i].Id() := Position(h, i)];
        history := history + PartyKeys(reps[i], h, i);
      }
      assert reps[..|reps|] == reps;
      return Ok(batch.(repIndex := repIndex, history := history));
    }

    /** Undoes in the cache what stands for tx, or says why that is impossible. */
    method UndoRepresentation(tx: Representation, height: int, cache: ImbalanceCache,
                              ghost undone: seq<Representation>)
      returns (refusal: Option<LedgerError>)
      requires cache.ledger == this
      requires ShowsUndone(cache, db.imbalances, undone)
      modifies cache
      ensures var maturing := Maturing(db, plotStore.plots, height);
        && (refusal.None? <==> Revocable(db.imbalances, maturing, undone, tx, height))
        && (refusal.None? ==> ShowsUndone(cache, db.imbalances, EffectOf(tx, maturing) + undone))
    {
      var toUndo := ToApply(tx, height);
      if toUndo.Err? {
        return Some(toUndo.error);
      }
      if toUndo.value.None? {
        assert [] + undone == undone;
        return None;
      }
      var effect := toUndo.value.value;
      assert effect in EffectOf(tx, Maturing(db, plotStore.plots, height));
      NetGrowsInFront(effect, undone);
      var ok := cache.Undo(effect);
      if !ok {
        return Some(RecipientWentNegative(effect));
      }
      return None;
    }

    /** Undoes every representation of the plot, the last one first, and drops their indices. */
    method DisconnectRepresentations(plot: Plot)
      returns (r: Result<(map<RepresentationID, Position>, set<HistoryKey>), LedgerError>, cache: ImbalanceCache)
      requires Valid()
      ensures cache.ledger == this && fresh(cache)
      ensures r.Err? <==> LacksMaturing(db, plotStore.plots, plot)
                          || !Undoable(db.imbalances, Effects(db, plotStore.plots, plot))
      ensures r.Ok? ==> ShowsUndone(cache, db.imbalances, Effects(db, plotStore.plots, plot))
      ensures r.Ok? ==> r.value == (db.repIndex - IdSet(plot.reps),
                                    db.history - PlotHistory(plot.reps, plot.header.height))
    {
      var height, reps := plot.header.height, plot.reps;
      ghost var maturing := Maturing(db, plotStore.plots, height);
      var repIndex, history := db.repIndex, db.history;
      cache := new ImbalanceCache(this);
      var i := |reps|;
      while i > 0
        invariant 0 <= i <= |reps| && db == old(db) && cache.ledger == this && fresh(cache)
        invariant repIndex == db.repIndex - IdSet(reps[i..])
        invariant history == db.history - HistoryFrom(reps, height, i)
        invariant UndoneFrom(db, plotStore.plots, plot, i)
        invariant ShowsUndone(cache, db.imbalances, EffectsOf(reps[i..], maturing))
      {
        i := i - 1;
        var tx := reps[i];
        UndoneStep(db, plotStore.plots, plot, i);
        EffectsFrom(reps, i, maturing);
        var refusal := UndoRepresentation(tx, height, cache, EffectsOf(reps[i + 1..], maturing));
        if refusal.Some? {
          CannotUndo(db, plotStore.plots, plot, i);
          return Err(refusal.value), cache;
        }
        DropBatchStep(db.repIndex, db.history, reps, i, height);
        repIndex := repIndex - {tx.Id()};
        history := history - PartyKeys(tx, height, i);
      }
      assert reps[0..] == reps;
      AllUndone(db, plotStore.plots, plot);
      return Ok((repIndex, history)), cache;
    }

    /** Disconnects the tip, or refuses and leaves the database alone. */
    method DisconnectPlot(id: PlotID, plot: Plot) returns (r: Result<seq<RepresentationID>, LedgerError>)
      requires Valid()
      modifies this
      ensures Valid()
      ensures r.Ok? <==> CanDisconnect(rules, old(db), plotStore.plots, id, plot)
      ensures r.Ok? ==> db == Disconnected(rules, old(db), plotStore.plots, id, plot) && r.value == Ids(plot.reps)
      ensures r.Err? ==> db == old(db)
    {
      if db.tip.None? || db.tip.value.id != id {
        return Err(TipMismatch);
      }
      var height := plot.header.height;
      var undone, cache := DisconnectRepresentations(plot);
      if undone.Err? {
        return Err(undone.error);
      }
      var imbalances := RecordImbalances(cache);
      UnsettledView(db.imbalances, imbalances, Effects(db, plotStore.plots, plot));
      var batch := Database(Some(Tip(plot.header.previous, height - 1)), db.branches[id := SIDE], db.heights - {height},
                            undone.value.0, undone.value.1, imbalances);
      if Prunes(rules, height) {
        var restored := RestoreIndices(height - 2 * PLOTS_UNTIL_NEW_SERIES, batch);
        if restored.Err? {
          return Err(restored.error);
        }
        batch := restored.value;
      } else {
        NothingRestored(batch);
      }
      db := batch;
      return Ok(Ids(plot.reps));
    }
  }

  ghost predicate ShowsUndone(cache: ImbalanceCache, m: Imbalances, undone: seq<Representation>)
    reads cache, cache.ledger
  {
    forall k :: cache.View(k) == Bal(m, k) - Net(undone, k)
  }

  ghost predicate Revocable(m: Imbalances, maturing: Option<Representation>, undone: seq<Representation>,
                            tx: Representation, height: int) {
    && !(tx.IsPlotroot() && height - PLOTROOT_MATURITY >= 0 && maturing.None?)
    && (forall r :: r in EffectOf(tx, maturing) ==> CanDebit(m, undone, r))
  }

  lemma NetGrowsInFront(r: Representation, undone: seq<Representation>)
    ensures forall k :: Net([r] + undone, k) == Delta(r, k) + Net(undone, k)
  {
    forall k ensures Net([r] + undone, k) == Delta(r, k) + Net(undone, k) {
      NetConcat([r], undone, k);
      NetOne(r, k);
    }
  }

  /** Representations i and later could be undone. */
  ghost predicate UndoneFrom(db: Database, plots: Plots, plot: Plot, i: nat)
    requires i <= |plot.reps|
  {
    && !LacksMaturing(db, plots, plot.(reps := plot.reps[i..]))
    && Undoable(db.imbalances, EffectsOf(plot.reps[i..], Maturing(db, plots, plot.header.height)))
  }

  lemma UndoableStep(m: Imbalances, more: seq<Representation>, undone: seq<Representation>)
    requires |more| <= 1
    ensures Undoable(m, more + undone) <==> Undoable(m, undone) && forall r :: r in more ==> CanDebit(m, undone, r)
  {
    var all := more + undone;
    if more == [] {
      assert all == undone;
    } else {
      assert all[1..] == undone;
      assert forall n :: 0 <= n < |undone| ==> all[n + 1 + 1..] == undone[n + 1..] && all[n + 1] == undone[n];
      if Undoable(m, all) {
        assert CanDebit(m, all[0 + 1..], all[0]);
        forall n | 0 <= n < |undone| ensures CanDebit(m, undone[n + 1..], undone[n]) {
          assert CanDebit(m, all[n + 1 + 1..], all[n + 1]);
        }
      }
      if Undoable(m, undone) && CanDebit(m, undone, more[0]) {
        forall n | 0 <= n < |all| ensures CanDebit(m, all[n + 1..], all[n]) {
          if n > 0 {
            assert CanDebit(m, undone[n - 1 + 1..], undone[n - 1]);
          }
        }
      }
    }
  }

  lemma UndoableSuffix(m: Imbalances, a: seq<Representation>, b: seq<Representation>)
    requires Undoable(m, a + b)
    ensures Undoable(m, b)
  {
    forall n | 0 <= n < |b| ensures CanDebit(m, b[n + 1..], b[n]) {
      assert CanDebit(m, (a + b)[|a| + n + 1..], (a + b)[|a| + n]);
      assert (a + b)[|a| + n + 1..] == b[n + 1..];
    }
  }

  lemma UndoneStep(db: Database, plots: Plots, plot: Plot, i: nat)
    requires i < |plot.reps| && UndoneFrom(db, plots, plot, i + 1)
    ensures var tx, maturing := plot.reps[i], Maturing(db, plots, plot.header.height);
      UndoneFrom(db, plots, plot, i) <==>
        Revocable(db.imbalances, maturing, EffectsOf(plot.reps[i + 1..], maturing), tx, plot.header.height)
  {
    var tx, maturing := plot.reps[i], Maturing(db, plots, plot.header.height);
    PlotrootHereOrLater(plot.reps, i);
    EffectsFrom(plot.reps, i, maturing);
    EffectIsOne(tx, maturing);
    UndoableStep(db.imbalances, EffectOf(tx, maturing), EffectsOf(plot.reps[i + 1..], maturing));
    hide HasPlotroot, EffectsOf, EffectOf, Undoable, CanDebit;
    MaturingMeans(db, plots, plot.header.height);
  }

  lemma EffectIsOne(tx: Representation, maturing: Option<Representation>)
    ensures |EffectOf(tx, maturing)| <= 1
  {
  }

  lemma MaturingMeans(db: Database, plots: Plots, height: int)
    ensures height - PLOTROOT_MATURITY >= 0 ==> Maturing(db, plots, height) == MaturingAt(db, plots, height)
  {
  }

  lemma PlotrootHereOrLater(reps: seq<Representation>, i: nat)
    requires i < |reps|
    ensures HasPlotroot(reps[i..]) <==> reps[i].IsPlotroot() || HasPlotroot(reps[i + 1..])
  {
    var a, b := reps[i + 1..], reps[i..];
    assert b[0] == reps[i];
    if HasPlotroot(a) {
      var j :| 0 <= j < |a| && a[j].IsPlotroot();
      assert b[j + 1].IsPlotroot();
    }
    if HasPlotroot(b) && !reps[i].IsPlotroot() {
      var j :| 0 <= j < |b| && b[j].IsPlotroot();
      assert a[j - 1].IsPlotroot();
    }
  }

  lemma UndoneWhole(db: Database, plots: Plots, plot: Plot, i: nat)
    requires i <= |plot.reps|
    requires !LacksMaturing(db, plots, plot) && Undoable(db.imbalances, Effects(db, plots, plot))
    ensures UndoneFrom(db, plots, plot, i)
  {
    var maturing := Maturing(db, plots, plot.header.height);
    assert plot.reps == plot.reps[..i] + plot.reps[i..];
    EffectsConcat(plot.reps[..i], plot.reps[i..], maturing);
    UndoableSuffix(db.imbalances, EffectsOf(plot.reps[..i], maturing), EffectsOf(plot.reps[i..], maturing));
    if HasPlotroot(plot.reps[i..]) {
      PlotrootInSuffix(plot.reps, i);
    }
  }

  lemma PlotrootInSuffix(reps: seq<Representation>, i: nat)
    requires i <= |reps| && HasPlotroot(reps[i..])
    ensures HasPlotroot(reps)
  {
    var j :| 0 <= j < |reps| - i && reps[i..][j].IsPlotroot();
    assert reps[i + j].IsPlotroot();
  }

  lemma CannotUndo(db: Database, plots: Plots, plot: Plot, i: nat)
    requires i <= |plot.reps| && !UndoneFrom(db, plots, plot, i)
    ensures LacksMaturing(db, plots, plot) || !Undoable(db.imbalances, Effects(db, plots, plot))
  {
    if !LacksMaturing(db, plots, plot) && Undoable(db.imbalances, Effects(db, plots, plot)) {
      UndoneWhole(db, plots, plot, i);
      assert false;
    }
  }

  lemma AllUndone(db: Database, plots: Plots, plot: Plot)
    requires UndoneFrom(db, plots, plot, 0)
    ensures !LacksMaturing(db, plots, plot) && Undoable(db.imbalances, Effects(db, plots, plot))
  {
    assert plot.reps[0..] == plot.reps;
  }

  lemma DropBatchStep(m: map<RepresentationID, Position>, s: set<HistoryKey>, reps: seq<Representation>, i: nat, h: int)
    requires i < |reps|
    ensures m - IdSet(reps[i..]) == (m - IdSet(reps[i + 1..])) - {reps[i].Id()}
    ensures s - HistoryFrom(reps, h, i) == (s - HistoryFrom(reps, h, i + 1)) - PartyKeys(reps[i], h, i)
  {
    IdsFrom(reps, i);
    HistoryStep(reps, i, h);
  }

  lemma NothingRestored(batch: Database)
    ensures batch.repIndex + PlotIndex([], 0) == batch.repIndex
    ensures batch.history + PlotHistory([], 0) == batch.history
  {
  }

  lemma UnsettledView(m: Imbalances, m': Imbalances, effects: seq<Representation>)
    requires NoZeros(m')
    requires forall k :: Bal(m', k) == Bal(m, k) - Net(effects, k)
    ensures m' == Unsettle(m, effects)
  {
    forall k ensures Bal(m', k) == Bal(Unsettle(m, effects), k) {
      UnsettleBal(m, effects, k);
    }
    BalancesDetermine(m', Unsettle(m, effects));
  }

  /** The cache stands for the stored map after the given effects. */
  ghost predicate Shows(cache: ImbalanceCache, m: Imbalances, effects: seq<Representation>)
    reads cache, cache.ledger
  {
    forall k :: cache.View(k) == Bal(m, k) + Net(effects, k)
  }

  ghost predicate Acceptable(rules: Rules, m: Imbalances, maturing: Option<Representation>,
                             before: seq<Representation>, tx: Representation, height: int) {
    && !(tx.IsPlotroot() && height - PLOTROOT_MATURITY >= 0 && maturing.None?)
    && (forall r :: r in EffectOf(tx, maturing) ==> CanSend(m, before, r) && !rules.guard(r))
  }

  ghost predicate RefusalFits(rules: Rules, m: Imbalances, maturing: Option<Representation>,
                              before: seq<Representation>, tx: Representation, height: int, e: LedgerError) {
    match e
    case MissingPlot(_) => tx.IsPlotroot() && height - PLOTROOT_MATURITY >= 0 && maturing.None?
    case InsufficientImbalance(r) => r in EffectOf(tx, maturing) && !CanSend(m, before, r)
    case SenderIsDescendant(r) => r in EffectOf(tx, maturing) && rules.guard(r)
    case _ => false
  }

  /** Some representation of the plot is refused. */
  ghost predicate Refused(rules: Rules, db: Database, plots: Plots, plot: Plot) {
    || !NoneIndexed(db, plot.reps)
    || LacksMaturing(db, plots, plot)
    || !Funded(db.imbalances, Effects(db, plots, plot))
    || !Unguarded(rules, Effects(db, plots, plot))
  }

  lemma NothingRefused(rules: Rules, db: Database, plots: Plots, plot: Plot)
    ensures !RefusedUpTo(rules, db, plots, plot, 0)
    ensures RefusedUpTo(rules, db, plots, plot, |plot.reps|) <==> Refused(rules, db, plots, plot)
  {
    assert plot.(reps := plot.reps[..|plot.reps|]) == plot;
  }

  lemma NothingIndexed(reps: seq<Representation>, height: int)
    ensures PlotIndex(reps[..0], height) == map[] && PlotHistory(reps[..0], height) == {}
  {
  }

  lemma NetGrows(before: seq<Representation>, r: Representation)
    ensures forall k :: Net(before + [r], k) == Net(before, k) + Delta(r, k)
  {
    forall k ensures Net(before + [r], k) == Net(before, k) + Delta(r, k) {
      NetConcat(before, [r], k);
      NetOne(r, k);
    }
  }

  lemma NothingPrunedYet(reps: seq<Representation>, h: int)
    ensures IdSet(reps[..0]) == {} && PlotHistory(reps[..0], h) == {}
  {
  }

  lemma NothingPruned(batch: Database)
    ensures batch.repIndex - IdSet([]) == batch.repIndex
    ensures batch.history - PlotHistory([], 0) == batch.history
  {
  }

  lemma LacksMaturingStep(db: Database, plots: Plots, plot: Plot, i: nat)
    requires i < |plot.reps|
    ensures LacksMaturing(db, plots, plot.(reps := plot.reps[..i + 1])) <==>
              || LacksMaturing(db, plots, plot.(reps := plot.reps[..i]))
              || (plot.reps[i].IsPlotroot() && plot.header.height - PLOTROOT_MATURITY >= 0
                  && MaturingAt(db, plots, plot.header.height).None?)
    ensures LacksMaturing(db, plots, plot.(reps := plot.reps[..i + 1])) ==> LacksMaturing(db, plots, plot)
  {
    var a, b := plot.reps[..i], plot.reps[..i + 1];
    assert b == a + [plot.reps[i]];
    assert HasPlotroot(b) <==> HasPlotroot(a) || plot.reps[i].IsPlotroot() by {
      assert b[i] == plot.reps[i];
      if HasPlotroot(a) {
        var j :| 0 <= j < i && a[j].IsPlotroot();
        assert b[j].IsPlotroot();
      }
      if HasPlotroot(b) && !b[i].IsPlotroot() {
        var j :| 0 <= j < i + 1 && b[j].IsPlotroot();
        assert a[j].IsPlotroot();
      }
    }
    if HasPlotroot(b) {
      var j :| 0 <= j < i + 1 && b[j].IsPlotroot();
      assert plot.reps[j].IsPlotroot();
    }
  }

  lemma OneEffect(rules: Rules, m: Imbalances, before: seq<Representation>, more: seq<Representation>)
    requires |more| <= 1
    ensures Funded(m, before + more) <==> Funded(m, before) && forall r :: r in more ==> CanSend(m, before, r)
    ensures Unguarded(rules, before + more) <==> Unguarded(rules, before) && forall r :: r in more ==> !rules.guard(r)
  {
    UnguardedConcat(rules, before, more);
    if more == [] {
      assert before + more == before;
    } else {
      assert more == [more[0]];
      FundedStep(m, before, more[0]);
    }
  }

  /** Being refused, for the first i representations of a plot. */
  ghost predicate RefusedUpTo(rules: Rules, db: Database, plots: Plots, plot: Plot, i: nat)
    requires i <= |plot.reps|
  {
    Refused(rules, db, plots, plot.(reps := plot.reps[..i]))
  }

  /** One more representation is refused exactly when it is indexed or not acceptable. */
  lemma RefusedStep(rules: Rules, db: Database, plots: Plots, plot: Plot, i: nat)
    requires i < |plot.reps| && !RefusedUpTo(rules, db, plots, plot, i)
    ensures var tx, maturing := plot.reps[i], Maturing(db, plots, plot.header.height);
      !RefusedUpTo(rules, db, plots, plot, i + 1) <==>
        && tx.Id() !in db.repIndex
        && Acceptable(rules, db.imbalances, maturing, EffectsOf(plot.reps[..i], maturing), tx, plot.header.height)
  {
    var tx, maturing := plot.reps[i], Maturing(db, plots, plot.header.height);
    EffectsUpTo(plot.reps, i, maturing);
    OneEffect(rules, db.imbalances, EffectsOf(plot.reps[..i], maturing), EffectOf(tx, maturing));
    LacksMaturingStep(db, plots, plot, i);
    NoneIndexedStep(db, plot.reps, i);
  }

  lemma RefusedPrefix(rules: Rules, db: Database, plots: Plots, plot: Plot, i: nat)
    requires i < |plot.reps|
    ensures RefusedUpTo(rules, db, plots, plot, i + 1) ==> Refused(rules, db, plots, plot)
  {
    var maturing := Maturing(db, plots, plot.header.height);
    EffectsUpTo(plot.reps, i, maturing);
    var upTo, rest := EffectsOf(plot.reps[..i + 1], maturing), EffectsOf(plot.reps[i + 1..], maturing);
    FundedConcat(db.imbalances, upTo, rest);
    UnguardedConcat(rules, upTo, rest);
    LacksMaturingStep(db, plots, plot, i);
    NoneIndexedStep(db, plot.reps, i);
  }

  lemma RefusalJustified(rules: Rules, db: Database, plots: Plots, plot: Plot, i: nat, e: LedgerError)
    requires i < |plot.reps|
    requires var tx, maturing := plot.reps[i], Maturing(db, plots, plot.header.height);
      || (e == AlreadyProcessed(tx.Id()) && tx.Id() in db.repIndex)
      || RefusalFits(rules, db.imbalances, maturing, EffectsOf(plot.reps[..i], maturing), tx, plot.header.height, e)
    ensures Justified(e, rules, db, plots, plot)
  {
    var tx, maturing := plot.reps[i], Maturing(db, plots, plot.header.height);
    var before, more := EffectsOf(plot.reps[..i], maturing), EffectOf(tx, maturing);
    EffectsUpTo(plot.reps, i, maturing);
    var upTo, rest := EffectsOf(plot.reps[..i + 1], maturing), EffectsOf(plot.reps[i + 1..], maturing);
    assert forall r :: r in more ==> r in upTo && r in upTo + rest;
    match e
    case AlreadyProcessed(_) =>
      NoneIndexedStep(db, plot.reps, i);
    case InsufficientImbalance(_) =>
      OneEffect(rules, db.imbalances, before, more);
      FundedConcat(db.imbalances, upTo, rest);
    case _ =>
  }

  lemma NoneIndexedStep(db: Database, reps: seq<Representation>, i: nat)
    requires i < |reps|
    ensures NoneIndexed(db, reps[..i + 1]) <==> NoneIndexed(db, reps[..i]) && reps[i].Id() !in db.repIndex
    ensures NoneIndexed(db, reps) ==> NoneIndexed(db, reps[..i + 1])
    ensures reps[i].Id() in IdSet(reps)
  {
    assert reps[..i + 1] == reps[..i] + [reps[i]];
  }

  lemma SettledView(m: Imbalances, m': Imbalances, effects: seq<Representation>)
    requires NoZeros(m')
    requires forall k :: Bal(m', k) == Bal(m, k) + Net(effects, k)
    ensures m' == Settle(m, effects)
  {
    forall k ensures Bal(m', k) == Bal(Settle(m, effects), k) {
      SettleBal(m, effects, k);
    }
    BalancesDetermine(m', Settle(m, effects));
  }
}
