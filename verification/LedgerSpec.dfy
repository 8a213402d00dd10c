/**
 * The ledger database, the writes that connecting and disconnecting a plot make to it,
 * and the independent meaning of a database: the thread of plots it reflects.
 */
module LedgerSpec {
  import opened Plots
  import opened Balances

  datatype BranchType = MAIN | SIDE | ORPHAN | UNKNOWN

  datatype Tip = Tip(id: PlotID, height: int)

  /** Where a representation was confirmed. */
  datatype Position = Position(height: int, index: int)

  /** One entry of a public key's history. */
  datatype HistoryKey = HistoryKey(key: PubKey, height: int, index: int)

  datatype Database = Database(
    tip: Option<Tip>,
    branches: map<PlotID, BranchType>,
    heights: map<int, PlotID>,
    repIndex: map<RepresentationID, Position>,
    history: set<HistoryKey>,
    imbalances: Imbalances)

  const EmptyDatabase := Database(None, map[], map[], map[], {}, map[])

  function BranchOf(db: Database, id: PlotID): BranchType {
    if id in db.branches then db.branches[id] else UNKNOWN
  }

  predicate Known(db: Database, id: PlotID) {
    BranchOf(db, id) == MAIN || BranchOf(db, id) == SIDE
  }

  // ---------- writes ----------

  /** Index entries of the representations of a plot at `height`. */
  function PlotIndex(reps: seq<Representation>, height: int): map<RepresentationID, Position> {
    if reps == [] then map[]
    else PlotIndex(reps[..|reps| - 1], height)[reps[|reps| - 1].Id() := Position(height, |reps| - 1)]
  }

  function PlotHistory(reps: seq<Representation>, height: int): set<HistoryKey> {
    set i, k | 0 <= i < |reps| && k in reps[i].Parties() :: HistoryKey(k, height, i)
  }

  function IdSet(reps: seq<Representation>): set<RepresentationID> {
    set i | 0 <= i < |reps| :: reps[i].Id()
  }

  /** The main thread plot at `height`, if the height index and the plot store both have it. */
  function PlotAt(db: Database, plots: Plots, height: int): Option<Plot> {
    if height in db.heights && db.heights[height] in plots
    then Some(plots[db.heights[height]].plot) else None
  }

  /** The plotroot that matures at `height`. */
  function MaturingAt(db: Database, plots: Plots, height: int): Option<Representation> {
    match PlotAt(db, plots, height - PLOTROOT_MATURITY)
    case None => None
    case Some(plot) => if |plot.reps| > 0 then Some(plot.reps[0]) else None
  }

  /** What a plot applies to imbalances: each plotroot stands for the one that matures with it. */
  function EffectsOf(reps: seq<Representation>, maturing: Option<Representation>): seq<Representation> {
    if reps == [] then []
    else EffectsOf(reps[..|reps| - 1], maturing) + EffectOf(reps[|reps| - 1], maturing)
  }

  function EffectOf(r: Representation, maturing: Option<Representation>): seq<Representation> {
    if !r.IsPlotroot() then [r] else if maturing.Some? then [maturing.value] else []
  }

  predicate HasPlotroot(reps: seq<Representation>) {
    exists i :: 0 <= i < |reps| && reps[i].IsPlotroot()
  }

  function Maturing(db: Database, plots: Plots, height: int): Option<Representation> {
    if height - PLOTROOT_MATURITY >= 0 then MaturingAt(db, plots, height) else None
  }

  function Effects(db: Database, plots: Plots, plot: Plot): seq<Representation> {
    EffectsOf(plot.reps, Maturing(db, plots, plot.header.height))
  }

  /** Whether a plotroot of the plot has to look up a maturing plotroot that is not there. */
  predicate LacksMaturing(db: Database, plots: Plots, plot: Plot) {
    HasPlotroot(plot.reps) && plot.header.height - PLOTROOT_MATURITY >= 0
    && MaturingAt(db, plots, plot.header.height).None?
  }

  /** Whether connecting or disconnecting at `height` touches the indices of an old plot. */
  predicate Prunes(rules: Rules, height: int) {
    rules.prune && height >= 2 * PLOTS_UNTIL_NEW_SERIES
  }

  function OldReps(rules: Rules, db: Database, plots: Plots, height: int): seq<Representation> {
    if Prunes(rules, height) && PlotAt(db, plots, height - 2 * PLOTS_UNTIL_NEW_SERIES).Some?
    then PlotAt(db, plots, height - 2 * PLOTS_UNTIL_NEW_SERIES).value.reps else []
  }

  ghost predicate Unguarded(rules: Rules, rs: seq<Representation>) {
    forall i :: 0 <= i < |rs| ==> !rules.guard(rs[i])
  }

  predicate NoneIndexed(db: Database, reps: seq<Representation>) {
    forall i :: 0 <= i < |reps| ==> reps[i].Id() !in db.repIndex
  }

  predicate LacksOld(rules: Rules, db: Database, plots: Plots, height: int) {
    Prunes(rules, height) && PlotAt(db, plots, height - 2 * PLOTS_UNTIL_NEW_SERIES).None?
  }

  /** Exactly when the ledger accepts the plot as its next one. */
  ghost predicate CanConnect(rules: Rules, db: Database, plots: Plots, plot: Plot) {
    && (db.tip.Some? ==> db.tip.value.id == plot.header.previous)
    && NoneIndexed(db, plot.reps)
    && !LacksMaturing(db, plots, plot)
    && Funded(db.imbalances, Effects(db, plots, plot))
    && Unguarded(rules, Effects(db, plots, plot))
    && !LacksOld(rules, db, plots, plot.header.height)
  }

  ghost function Connected(rules: Rules, db: Database, plots: Plots, id: PlotID, plot: Plot): Database {
    var h := plot.header.height;
    var stale := OldReps(rules, db, plots, h);
    Database(
      Some(Tip(id, h)),
      db.branches[id := MAIN],
      db.heights[h := id],
      (db.repIndex + PlotIndex(plot.reps, h)) - IdSet(stale),
      (db.history + PlotHistory(plot.reps, h)) - PlotHistory(stale, OldHeight(rules, db, plots, h)),
      Settle(db.imbalances, Effects(db, plots, plot)))
  }

  /** The height an old plot's indices are written under: its own header's. */
  function OldHeight(rules: Rules, db: Database, plots: Plots, height: int): int {
    if Prunes(rules, height) && PlotAt(db, plots, height - 2 * PLOTS_UNTIL_NEW_SERIES).Some?
    then PlotAt(db, plots, height - 2 * PLOTS_UNTIL_NEW_SERIES).value.header.height else 0
  }

  ghost predicate CanDisconnect(rules: Rules, db: Database, plots: Plots, id: PlotID, plot: Plot) {
    && db.tip.Some? && db.tip.value.id == id
    && !LacksMaturing(db, plots, plot)
    && Undoable(db.imbalances, Effects(db, plots, plot))
    && !LacksOld(rules, db, plots, plot.header.height)
  }

  ghost function Disconnected(rules: Rules, db: Database, plots: Plots, id: PlotID, plot: Plot): Database {
    var h := plot.header.height;
    var stale := OldReps(rules, db, plots, h);
    var oldHeight := OldHeight(rules, db, plots, h);
    Database(
      Some(Tip(plot.header.previous, h - 1)),
      db.branches[id := SIDE],
      db.heights - {h},
      (db.repIndex - IdSet(plot.reps)) + PlotIndex(stale, oldHeight),
      (db.history - PlotHistory(plot.reps, h)) + PlotHistory(stale, oldHeight),
      Unsettle(db.imbalances, Effects(db, plots, plot)))
  }

  // ---------- meaning ----------

  type Thread = seq<Entry>

  /** Consecutive plots from height 0, each naming the one before it, each in shape and in series. */
  ghost predicate IsThread(chain: Thread) {
    forall h :: 0 <= h < |chain| ==> LinkOk(chain, h)
  }

  ghost predicate LinkOk(chain: Thread, h: nat)
    requires h < |chain|
  {
    && chain[h].plot.header.height == h
    && (h > 0 ==> chain[h].plot.header.previous == chain[h - 1].id)
    && WellShaped(chain[h].plot)
    && SeriesRight(chain[h].plot)
  }

  ghost predicate At(chain: Thread, p: Position) {
    0 <= p.height < |chain| && 0 <= p.index < |chain[p.height].plot.reps|
  }

  ghost predicate InWindow(chain: Thread, lo: nat, p: Position) {
    At(chain, p) && p.height >= lo
  }

  ghost function RepAt(chain: Thread, p: Position): Representation
    requires At(chain, p)
  {
    chain[p.height].plot.reps[p.index]
  }

  /** No representation is confirmed at two places. */
  ghost predicate NoRepeats(chain: Thread) {
    forall p, q :: At(chain, p) && At(chain, q) && RepAt(chain, p).Id() == RepAt(chain, q).Id() ==> p == q
  }

  ghost predicate Confirmed(chain: Thread, id: RepresentationID) {
    exists p :: At(chain, p) && RepAt(chain, p).Id() == id
  }

  ghost function RootMaturing(chain: Thread, h: nat): Option<Representation>
    requires IsThread(chain) && h < |chain|
  {
    if h >= PLOTROOT_MATURITY then
      assert LinkOk(chain, h - PLOTROOT_MATURITY);
      Some(chain[h - PLOTROOT_MATURITY].plot.reps[0])
    else None
  }

  /** Everything the thread has applied to imbalances, in order. */
  ghost function ThreadEffects(chain: Thread): seq<Representation>
    requires IsThread(chain)
  {
    if chain == [] then []
    else
      ThreadEffects(Front(chain)) + EffectsAt(chain, |chain| - 1)
  }

  ghost function EffectsAt(chain: Thread, h: nat): seq<Representation>
    requires IsThread(chain) && h < |chain|
  {
    EffectsOf(chain[h].plot.reps, RootMaturing(chain, h))
  }

  lemma ThreadPrefix(chain: Thread, n: nat)
    requires n <= |chain|
    ensures IsThread(chain) ==> IsThread(chain[..n])
  {
    if IsThread(chain) {
      forall h | 0 <= h < n ensures LinkOk(chain[..n], h) {
        assert LinkOk(chain, h);
      }
    }
  }

  ghost function Front(chain: Thread): (front: Thread)
    requires chain != []
    ensures IsThread(chain) ==> IsThread(front)
  {
    ThreadPrefix(chain, |chain| - 1);
    chain[..|chain| - 1]
  }

  /** A thread every node accepts, however it came to see it: no mention of any database. */
  ghost predicate ValidThread(rules: Rules, chain: Thread) {
    && IsThread(chain)
    && NoRepeats(chain)
    && Funded(map[], ThreadEffects(chain))
    && Unguarded(rules, ThreadEffects(chain))
  }

  /** The lowest height whose plot still has its indices, when the tip is at length - 1. */
  function Low(rules: Rules, length: nat): nat {
    if rules.prune && length > 2 * PLOTS_UNTIL_NEW_SERIES then length - 2 * PLOTS_UNTIL_NEW_SERIES else 0
  }

  /** repIndex holds exactly the thread's representations from height lo on. */
  ghost predicate IndexMatches(m: map<RepresentationID, Position>, chain: Thread, lo: nat) {
    && (forall p :: InWindow(chain, lo, p) ==> RepAt(chain, p).Id() in m && m[RepAt(chain, p).Id()] == p)
    && (forall id :: id in m ==> InWindow(chain, lo, m[id]) && RepAt(chain, m[id]).Id() == id)
  }

  /** Both parties of every representation from height lo on have it in their history, and nothing else. */
  ghost predicate HistoryMatches(s: set<HistoryKey>, chain: Thread, lo: nat) {
    forall e :: e in s <==>
      InWindow(chain, lo, Position(e.height, e.index))
      && e.key in RepAt(chain, Position(e.height, e.index)).Parties()
  }

  ghost predicate HeightsMatch(m: map<int, PlotID>, chain: Thread) {
    forall h :: (h in m <==> 0 <= h < |chain|) && (h in m ==> m[h] == chain[h].id)
  }

  ghost function TipOf(chain: Thread): Option<Tip> {
    if chain == [] then None else Some(Tip(chain[|chain| - 1].id, |chain| - 1))
  }

  ghost predicate OnThread(chain: Thread, id: PlotID) {
    exists h :: 0 <= h < |chain| && chain[h].id == id
  }

  ghost predicate BranchesMatch(db: Database, chain: Thread) {
    forall id :: BranchOf(db, id) == MAIN <==> OnThread(chain, id)
  }

  /** The database is what replaying the thread from genesis would give. */
  ghost predicate Reflects(rules: Rules, db: Database, chain: Thread) {
    && IsThread(chain)
    && db.tip == TipOf(chain)
    && HeightsMatch(db.heights, chain)
    && IndexMatches(db.repIndex, chain, Low(rules, |chain|))
    && HistoryMatches(db.history, chain, Low(rules, |chain|))
    && db.imbalances == Settle(map[], ThreadEffects(chain))
    && BranchesMatch(db, chain)
  }

  /** The store holds the plots of the thread under their IDs. */
  ghost predicate Holds(plots: Plots, chain: Thread) {
    forall h :: 0 <= h < |chain| ==> chain[h].id in plots && plots[chain[h].id].plot == chain[h].plot
  }
}
