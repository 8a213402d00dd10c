/** Reorganising as a step on values: where the branches part, what is kept, and why a rollback is exact. */
module Reorganisation {
  import opened Plots
  import opened Balances
  import opened LedgerSpec
  import opened LedgerProofs
  import opened QueueSpec
  import opened Tree
  import opened Consensus
  import opened ThreadState
  import opened QueueProofs
  import opened QueueMoves

  /** IDs from the end of a thread down to index `from`. */
  function DownIds(chain: Thread, from: nat): (ids: seq<PlotID>)
    requires from <= |chain|
    ensures |ids| == |chain| - from
  {
    seq<PlotID>(|chain| - from, d requires 0 <= d < |chain| - from => chain[|chain| - 1 - d].id)
  }

  /** IDs from index `from` up to the end of a thread. */
  function UpIds(chain: Thread, from: nat): (ids: seq<PlotID>)
    requires from <= |chain|
    ensures |ids| == |chain| - from
  {
    seq<PlotID>(|chain| - from, d requires 0 <= d < |chain| - from => chain[from + d].id)
  }

  lemma DownStep(chain: Thread, i: nat)
    requires i < |chain|
    ensures DownIds(chain, i) == DownIds(chain, i + 1) + [chain[i].id]
    ensures UpIds(chain, i) == [chain[i].id] + UpIds(chain, i + 1)
  {
  }

  ghost predicate HashesRight(rules: Rules, plots: Plots) {
    forall id :: id in plots ==> rules.hash(plots[id].plot.header) == id
  }

  /** Comparing headers, as the walk does, finds the fork: equal headers at one height mean equal paths. */
  lemma HeadersTellTheFork(rules: Rules, plots: Plots, tipID: PlotID, parentID: PlotID)
    requires TreeOk(plots, rules.genesisID) && HashesRight(rules, plots) && tipID in plots && parentID in plots
    ensures var a, b := PathTo(rules, plots, tipID), PathTo(rules, plots, parentID);
      forall h :: 0 <= h < |a| && h < |b| ==> (a[h].plot.header == b[h].plot.header <==> h < Common(a, b))
  {
    var a, b := PathTo(rules, plots, tipID), PathTo(rules, plots, parentID);
    CommonMeans(a, b);
    forall h | 0 <= h < |a| && h < |b| ensures a[h].plot.header == b[h].plot.header <==> h < Common(a, b) {
      if h < Common(a, b) {
        SamePrefix(a, b, Common(a, b), h);
      } else if a[h].plot.header == b[h].plot.header {
        SameHeaderSamePath(rules, plots, tipID, parentID, h);
      }
    }
  }

  /** Equal headers at one height of two paths: the fork is above. */
  lemma SameHeaderSamePath(rules: Rules, plots: Plots, tipID: PlotID, parentID: PlotID, h: nat)
    requires TreeOk(plots, rules.genesisID) && HashesRight(rules, plots)
    requires tipID in plots && parentID in plots
    requires h < |PathTo(rules, plots, tipID)| && h < |PathTo(rules, plots, parentID)|
    requires PathTo(rules, plots, tipID)[h].plot.header == PathTo(rules, plots, parentID)[h].plot.header
    ensures Common(PathTo(rules, plots, tipID), PathTo(rules, plots, parentID)) > h
  {
    var a, b := PathTo(rules, plots, tipID), PathTo(rules, plots, parentID);
    PathLength(plots, rules.genesisID, tipID);
    PathLength(plots, rules.genesisID, parentID);
    PathPrefix(plots, rules.genesisID, tipID, h);
    PathPrefix(plots, rules.genesisID, parentID, h);
    CommonMeans(a, b);
    var c := Common(a, b);
    if c <= h {
      SamePrefix(a, b, h + 1, c);
      assert false;
    }
  }

  /** Ledger, store and queue are consistent with the thread. */
  ghost predicate Stands(rules: Rules, plots: Plots, db: Database, queue: seq<Representation>, chain: Thread) {
    && Reflects(rules, db, chain) && ValidThread(rules, chain) && Holds(plots, chain)
    && QueueOk(rules, chain, queue)
  }

  /** The queue applies in order on the ledger in the next plot, and the cache shows what is left after it. */
  ghost predicate SettledOn(db: Database, queue: seq<Representation>, cache: map<PubKey, int>) {
    && db.tip.Some?
    && Applicable(db.imbalances, queue, db.tip.value.height)
    && forall k :: CacheView(cache, db.imbalances, k) == Bal(db.imbalances, k) + Net(queue, k)
  }

  /**
   * What holds of queue and cache in every reachable state: the cache shows some sequence that applies in
   * the next plot, and the queue is what the guard lets through of it, in order.
   */
  ghost predicate AccountedOn(rules: Rules, db: Database, queue: seq<Representation>, cache: map<PubKey, int>) {
    exists applied :: AccountedBy(rules, db, queue, cache, applied)
  }

  ghost predicate AccountedBy(rules: Rules, db: Database, queue: seq<Representation>, cache: map<PubKey, int>,
                              applied: seq<Representation>) {
    SettledOn(db, applied, cache) && queue == LetThrough(rules, applied)
  }

  /** What a cache over a stored map stands for. */
  function CacheView(cache: map<PubKey, int>, m: Imbalances, k: PubKey): int {
    if k in cache then cache[k] else Bal(m, k)
  }

  /** A plot in shape and in series, stored, one above the thread's tip. */
  ghost predicate Candidate(plots: Plots, chain: Thread, e: Entry) {
    && e.id in plots && plots[e.id].plot == e.plot
    && e.plot.header.height == |chain| && WellShaped(e.plot) && SeriesRight(e.plot)
  }

  lemma HoldsLonger(plots: Plots, chain: Thread, e: Entry)
    requires Holds(plots, chain) && e.id in plots && plots[e.id].plot == e.plot
    ensures Holds(plots, chain + [e])
  {
  }

  lemma ConnectStands(rules: Rules, plots: Plots, db: Database, queue: seq<Representation>, chain: Thread, e: Entry)
    requires Stands(rules, plots, db, queue, chain) && Candidate(plots, chain, e)
    ensures |e.plot.reps| > 0
    ensures CanConnect(rules, db, plots, e.plot) <==> ValidThread(rules, chain + [e])
    ensures CanConnect(rules, db, plots, e.plot) ==>
              Stands(rules, plots, Connected(rules, db, plots, e.id, e.plot),
                     Without(queue, IdsIn(Ids(e.plot.reps)[1..])), chain + [e])
  {
    ConnectIffValid(rules, db, plots, chain, e);
    if CanConnect(rules, db, plots, e.plot) {
      ConnectReflects(rules, db, plots, chain, e);
      ConnectKeepsQueue(rules, chain, e, queue);
      HoldsLonger(plots, chain, e);
    }
  }

  lemma PassStands(rules: Rules, plots: Plots, db: Database, queue: seq<Representation>, chain: Thread, height: int)
    requires Stands(rules, plots, db, queue, chain)
    ensures var pass := Reprocessed(rules, db.imbalances, queue, height);
      && Stands(rules, plots, db, pass.kept, chain)
      && pass.kept == pass.applied && Applicable(db.imbalances, pass.kept, height)
  {
    PassKeepsQueue(rules, chain, db.imbalances, queue, height);
    PassIsFunded(rules, db.imbalances, queue, height);
    PassKeepsWhatItApplies(rules, db.imbalances, queue, height);
  }

  lemma DisconnectStands(rules: Rules, plots: Plots, db: Database, queue: seq<Representation>, chain: Thread, e: Entry)
    requires chain != [] && Stands(rules, plots, db, queue, chain + [e]) && !OnThread(chain, e.id)
    requires WellShaped(e.plot) && forall i :: 1 <= i < |e.plot.reps| ==> Checked(rules, e.plot.reps[i])
    ensures CanDisconnect(rules, db, plots, e.id, e.plot)
    ensures Stands(rules, plots, Disconnected(rules, db, plots, e.id, e.plot),
                   e.plot.reps[1..] + Without(queue, IdSet(e.plot.reps[1..])), chain)
    ensures |e.plot.reps| > 0 && DistinctIds(e.plot.reps[1..])
  {
    DisconnectReflects(rules, db, plots, chain, e);
    PlotUnguarded(rules, chain, e);
    DisconnectKeepsQueue(rules, chain, e, queue);
    ValidPrefix(rules, chain + [e], |chain|);
    HoldsPrefix(plots, chain, e);
    assert (chain + [e])[..|chain|] == chain;
    TailDistinct(e.plot.reps);
  }

  lemma PrefixOfLonger(parents: Thread, e: Entry, c: nat, n: nat)
    requires c <= n <= |parents|
    ensures parents[..n] == (parents + [e])[..n] && parents[c..n] == (parents + [e])[c..n]
    ensures n < |parents| ==> parents[..n + 1] == (parents + [e])[..n + 1]
    ensures n == |parents| ==> parents[..n] == parents && parents[c..n] + [e] == (parents + [e])[c..n + 1]
                               && (parents + [e])[..n + 1] == parents + [e]
  {
  }

  /**
   * A reorganisation towards `id` that got as far as the first n plots of its path: every mark is as
   * disconnecting down to the fork and connecting up to there leaves it; short of the whole path, the
   * next plot is one that does not connect.
   */
  ghost predicate WentOver(rules: Rules, plots: Plots, db: Database, next: Database, id: PlotID, n: nat) {
    var a, b := MainThread(rules, plots, db), PathTo(rules, plots, id);
    var c := ForkPoint(rules, plots, db, id);
    && c <= n <= |b| && c <= |a|
    && next.branches == Reorganised(db.branches, a[c..], b[c..n])
    && (n < |b| ==> !ValidThread(rules, b[..n + 1]))
  }

  /** How many plots the path to the tip shares with the path to the new plot's parent. */
  ghost function ForkPoint(rules: Rules, plots: Plots, db: Database, id: PlotID): nat {
    var b := PathTo(rules, plots, id);
    if b == [] then 0 else Common(MainThread(rules, plots, db), b[..|b| - 1])
  }

  /** The main thread's plots past the fork. */
  ghost function PastFork(rules: Rules, plots: Plots, db: Database, id: PlotID): Thread {
    var a, b := MainThread(rules, plots, db), PathTo(rules, plots, id);
    if b == [] then a else CommonMeans(a, b[..|b| - 1]); a[ForkPoint(rules, plots, db, id)..]
  }

  lemma PastForkIs(rules: Rules, plots: Plots, db: Database, id: PlotID)
    requires LedgerOk(rules, plots, db) && id in plots && id != rules.genesisID
    ensures var a, c := MainThread(rules, plots, db), ForkPoint(rules, plots, db, id);
      c <= |a| && PastFork(rules, plots, db, id) == a[c..]
  {
    ForkAboveGenesis(rules, plots, db, id);
  }

  /** A plot that is not known is not on the main thread, so the branches part below it. */
  lemma UnknownForks(rules: Rules, plots: Plots, db: Database, id: PlotID)
    requires LedgerOk(rules, plots, db) && id in plots && id != rules.genesisID && !Known(db, id)
    ensures ForkPoint(rules, plots, db, id) == Common(MainThread(rules, plots, db), PathTo(rules, plots, id))
  {
    hide *;
    var a, b := MainThread(rules, plots, db), PathTo(rules, plots, id);
    LedgerFacts(rules, plots, db);
    PathEnd(rules, plots, id);
    ForkAboveGenesis(rules, plots, db, id);
    UnknownIsOff(rules, db, a, id);
    ForkIsCommon(a, b);
  }

  lemma UnknownIsOff(rules: Rules, db: Database, chain: Thread, id: PlotID)
    requires Reflects(rules, db, chain) && !Known(db, id)
    ensures !OnThread(chain, id)
  {
    assert BranchOf(db, id) == MAIN <==> OnThread(chain, id);
  }

  lemma StandsQueue(rules: Rules, plots: Plots, db: Database, queue: seq<Representation>, chain: Thread)
    ensures Stands(rules, plots, db, queue, chain) ==> QueueOk(rules, chain, queue) && Unconfirmed(chain, queue)
  {
  }

  lemma CandidateParts(plots: Plots, chain: Thread, e: Entry)
    requires Candidate(plots, chain, e)
    ensures e.plot.header.height == |chain| && WellShaped(e.plot)
  {
  }

  /** A queue that stands on a thread has nothing the thread confirms. */
  lemma NothingPending(rules: Rules, plots: Plots, db: Database, queue: seq<Representation>, chain: Thread)
    requires Stands(rules, plots, db, queue, chain)
    ensures Pending(chain, queue) == queue
  {
    PendingAll(chain, queue);
  }

  /** A stored path is a thread the store holds, without a plot twice, all signatures checked. */
  lemma PathFacts(rules: Rules, plots: Plots, id: PlotID)
    requires StoreOk(rules, plots) && id in plots
    ensures var path := PathTo(rules, plots, id);
      && |path| > 0 && path[|path| - 1] == Entry(id, plots[id].plot)
      && IsThread(path) && Holds(plots, path) && Once(path) && AllVerified(rules, path)
    ensures HashesRight(rules, plots)
  {
    PathLength(plots, rules.genesisID, id);
    PathIsThread(rules, plots, id);
    PathHeld(plots, rules.genesisID, id);
    PathVerified(rules, plots, id);
    forall i | i in plots ensures rules.hash(plots[i].plot.header) == i {
      assert PlotOk(rules, plots, i);
    }
  }

  /** What the reorganisation needs to know about the two paths. */
  lemma BranchFacts(rules: Rules, plots: Plots, db: Database, id: PlotID)
    requires LedgerOk(rules, plots, db) && id in plots && id != rules.genesisID
    ensures db.tip.Some? && db.tip.value.id in plots && plots[id].plot.header.previous in plots
    ensures TreeOk(plots, rules.genesisID) && HashesRight(rules, plots)
    ensures var a, parents := MainThread(rules, plots, db), PathTo(rules, plots, plots[id].plot.header.previous);
      var e, c := Entry(id, plots[id].plot), Common(a, parents);
      && a == PathTo(rules, plots, db.tip.value.id) && PathTo(rules, plots, id) == parents + [e]
      && c <= |a| && c <= |parents| && a[..c] == parents[..c]
      && Once(a) && AllVerified(rules, a) && Holds(plots, a)
      && IsThread(parents) && Holds(plots, parents) && Candidate(plots, parents, e)
  {
    var parent := plots[id].plot.header.previous;
    ParentFacts(rules, plots, id);
    PathFacts(rules, plots, db.tip.value.id);
    PathFacts(rules, plots, id);
    PathFacts(rules, plots, parent);
    CandidateAfter(plots, PathTo(rules, plots, parent), Entry(id, plots[id].plot), PathTo(rules, plots, id));
    CommonMeans(MainThread(rules, plots, db), PathTo(rules, plots, parent));
  }

  lemma CandidateAfter(plots: Plots, parents: Thread, e: Entry, path: Thread)
    requires path == parents + [e] && IsThread(path) && Holds(plots, path)
    ensures Candidate(plots, parents, e)
  {
    assert path[|parents|] == e;
    assert LinkOk(path, |parents|);
  }

  lemma Assembled(rules: Rules, plots: Plots, db: Database, next: Database, id: PlotID, n: nat)
    requires TreeOk(plots, rules.genesisID) && id in plots && id != rules.genesisID
    requires db.tip.Some? && db.tip.value.id in plots
    requires plots[id].plot.header.previous in plots
    requires var a, parents := PathTo(rules, plots, db.tip.value.id),
               PathTo(rules, plots, plots[id].plot.header.previous);
      var b, c := parents + [Entry(id, plots[id].plot)], Common(a, parents);
      && c <= n <= |b| && c <= |a|
      && next.branches == Marked(Marked(db.branches, a[c..], SIDE), b[c..n], MAIN)
      && (n < |b| ==> !ValidThread(rules, b[..n + 1]))
    ensures WentOver(rules, plots, db, next, id, n)
    ensures ForkPoint(rules, plots, db, id) ==
      Common(PathTo(rules, plots, db.tip.value.id), PathTo(rules, plots, plots[id].plot.header.previous))
  {
    ParentFacts(rules, plots, id);
  }

  lemma ParentFacts(rules: Rules, plots: Plots, id: PlotID)
    requires TreeOk(plots, rules.genesisID) && id in plots && id != rules.genesisID
    ensures plots[id].plot.header.previous in plots
    ensures PathTo(rules, plots, id) ==
            PathTo(rules, plots, plots[id].plot.header.previous) + [Entry(id, plots[id].plot)]
  {
    PathStep(plots, rules.genesisID, id);
  }

  lemma PathVerified(rules: Rules, plots: Plots, id: PlotID)
    requires StoreOk(rules, plots) && id in plots
    ensures Once(PathTo(rules, plots, id)) && AllVerified(rules, PathTo(rules, plots, id))
  {
    var a := PathTo(rules, plots, id);
    PathLength(plots, rules.genesisID, id);
    forall h | 0 <= h < |a| ensures !OnThread(a[..h], a[h].id) && PlotVerified(rules, a[h].plot) {
      PathOnce(plots, rules.genesisID, id, h);
      PathPrefix(plots, rules.genesisID, id, h);
      assert PlotOk(rules, plots, a[h].id) && NodeOk(plots, rules.genesisID, a[h].id);
    }
  }

  /** Each ID sits on the thread once. */
  ghost predicate Once(chain: Thread) {
    forall h :: 0 <= h < |chain| ==> !OnThread(chain[..h], chain[h].id)
  }

  ghost predicate PlotVerified(rules: Rules, plot: Plot) {
    WellShaped(plot) && forall i :: 1 <= i < |plot.reps| ==> Checked(rules, plot.reps[i])
  }

  ghost predicate AllVerified(rules: Rules, chain: Thread) {
    forall h :: 0 <= h < |chain| ==> PlotVerified(rules, chain[h].plot)
  }

  lemma DisconnectStep(rules: Rules, plots: Plots, branches: map<PlotID, BranchType>, a: Thread, n: nat)
    requires n < |a| && Once(a) && AllVerified(rules, a) && Holds(plots, a)
    ensures a[..n + 1] == a[..n] + [a[n]] && !OnThread(a[..n], a[n].id)
    ensures a[n].id in plots && plots[a[n].id].plot == a[n].plot && PlotVerified(rules, a[n].plot)
    ensures Marked(branches, a[n + 1..], SIDE)[a[n].id := SIDE] == Marked(branches, a[n..], SIDE)
  {
    assert a[n..] == [a[n]] + a[n + 1..];
    MarkOne(branches, a[n + 1..], a[n], SIDE);
  }

  lemma ConnectStep(plots: Plots, branches: map<PlotID, BranchType>, b: Thread, c: nat, n: nat)
    requires IsThread(b) && Holds(plots, b) && c <= n < |b|
    ensures b[..n + 1] == b[..n] + [b[n]] && Candidate(plots, b[..n], b[n])
    ensures b[n].id in plots && plots[b[n].id].plot == b[n].plot
    ensures Marked(branches, b[c..n], MAIN)[b[n].id := MAIN] == Marked(branches, b[c..n + 1], MAIN)
  {
    assert b[c..n + 1] == b[c..n] + [b[n]];
    MarkOne(branches, b[c..n], b[n], MAIN);
    assert LinkOk(b, n);
  }

  lemma TailDistinct(reps: seq<Representation>)
    requires reps != [] && DistinctIds(reps)
    ensures DistinctIds(reps[1..])
  {
    assert forall i :: 0 <= i < |reps[1..]| ==> reps[1..][i] == reps[i + 1];
  }

  // ---------- after a reorganisation, whole or not ----------

  /** What WentOver says about one mark. */
  lemma MarkAfter(rules: Rules, plots: Plots, db: Database, next: Database, id: PlotID, n: nat, x: PlotID)
    requires WentOver(rules, plots, db, next, id, n)
    ensures var a, b, c := MainThread(rules, plots, db), PathTo(rules, plots, id), ForkPoint(rules, plots, db, id);
      BranchOf(next, x) == if x in IdsOn(b[c..n]) then MAIN else if x in IdsOn(a[c..]) then SIDE else BranchOf(db, x)
  {
    hide PathTo, MainThread, ForkPoint, IdsOn;
  }

  lemma IdsStored(plots: Plots, chain: Thread, lo: nat, hi: nat, x: PlotID)
    requires Holds(plots, chain) && lo <= hi <= |chain| && x in IdsOn(chain[lo..hi])
    ensures x in plots
  {
    var i :| 0 <= i < |chain[lo..hi]| && chain[lo..hi][i].id == x;
    assert chain[lo + i].id == x;
  }

  /** No mark is lost: what was known stays known, and nothing unstored becomes known. */
  lemma BranchesAfter(rules: Rules, plots: Plots, db: Database, next: Database, id: PlotID, n: nat)
    requires BranchesOk(rules, plots, db) && WentOver(rules, plots, db, next, id, n)
    requires Holds(plots, MainThread(rules, plots, db)) && Holds(plots, PathTo(rules, plots, id))
    ensures BranchesOk(rules, plots, next)
    ensures forall x :: Known(db, x) ==> Known(next, x)
  {
    hide PathTo, MainThread, ForkPoint, IdsOn, Holds, ValidThread;
    var a, b, c := MainThread(rules, plots, db), PathTo(rules, plots, id), ForkPoint(rules, plots, db, id);
    assert a[c..] == a[c..|a|];
    assert c <= n <= |b| && c <= |a| && next.branches == Reorganised(db.branches, a[c..], b[c..n]);
    forall x ensures Known(next, x) ==> x in plots
             ensures Known(db, x) ==> Known(next, x)
    {
      MarkAfter(rules, plots, db, next, id, n, x);
      if x in IdsOn(b[c..n]) {
        IdsStored(plots, b, c, n, x);
      } else if x in IdsOn(a[c..]) {
        IdsStored(plots, a, c, |a|, x);
      }
    }
  }

  /** Wherever a reorganisation stops, the ledger is consistent with the path to its tip. */
  lemma ReorganisedLedgerOk(rules: Rules, plots: Plots, db: Database, next: Database, id: PlotID, n: nat)
    requires LedgerOk(rules, plots, db) && id in plots
    requires WentOver(rules, plots, db, next, id, n) && 1 <= n <= |PathTo(rules, plots, id)|
    requires Reflects(rules, next, PathTo(rules, plots, id)[..n]) && ValidThread(rules, PathTo(rules, plots, id)[..n])
    ensures LedgerOk(rules, plots, next) && MainThread(rules, plots, next) == PathTo(rules, plots, id)[..n]
    ensures next.tip.value.id == PathTo(rules, plots, id)[n - 1].id
  {
    hide Reflects, ValidThread, WentOver, BranchesOk, Path;
    LedgerFacts(rules, plots, db);
    PathHeld(plots, rules.genesisID, db.tip.value.id);
    PathHeld(plots, rules.genesisID, id);
    BranchesAfter(rules, plots, db, next, id, n);
    PathLength(plots, rules.genesisID, id);
    PathPrefix(plots, rules.genesisID, id, n - 1);
    TipEnds(rules, next, PathTo(rules, plots, id)[..n]);
  }

  lemma TipEnds(rules: Rules, db: Database, chain: Thread)
    requires Reflects(rules, db, chain) && chain != []
    ensures db.tip == Some(Tip(chain[|chain| - 1].id, |chain| - 1))
  {
  }

  /** The branches part after genesis. */
  lemma ForkAboveGenesis(rules: Rules, plots: Plots, db: Database, id: PlotID)
    requires LedgerOk(rules, plots, db) && id in plots && id != rules.genesisID
    ensures var a, b, c := MainThread(rules, plots, db), PathTo(rules, plots, id), ForkPoint(rules, plots, db, id);
      && 1 <= c <= |a| && c < |b| && a[..c] == b[..c]
      && c == Common(a, b[..|b| - 1])
      && b[..|b| - 1] == PathTo(rules, plots, plots[id].plot.header.previous)
      && plots[id].plot.header.previous in plots && db.tip.value.id in plots
  {
    ParentFacts(rules, plots, id);
    var parent := plots[id].plot.header.previous;
    PathsShareGenesis(rules, plots, db.tip.value.id, parent);
    CommonMeans(MainThread(rules, plots, db), PathTo(rules, plots, parent));
    assert PathTo(rules, plots, id)[..|PathTo(rules, plots, id)| - 1] == PathTo(rules, plots, parent);
    ForkPrefix(MainThread(rules, plots, db), PathTo(rules, plots, parent), Entry(id, plots[id].plot));
  }

  lemma ForkPrefix(a: Thread, parents: Thread, e: Entry)
    ensures var c := Common(a, parents);
      c <= |a| && c <= |parents| && a[..c] == (parents + [e])[..c]
  {
    CommonMeans(a, parents);
    assert (parents + [e])[..Common(a, parents)] == parents[..Common(a, parents)];
  }

  // ---------- rolling back ----------

  /**
   * After a failed reorganisation the ledger stands on a proper ancestor of the refused plot. Either that
   * is the old tip itself, and nothing was disconnected or connected, or the old tip beats it.
   */
  lemma OldTipBeatsWhatIsLeft(rules: Rules, plots: Plots, db: Database, id: PlotID, n: nat)
    requires LedgerOk(rules, plots, db) && TipIsBest(plots, db) && id in plots && id != rules.genesisID
    requires ForkPoint(rules, plots, db, id) <= n < |PathTo(rules, plots, id)|
    ensures n >= 1
    ensures var left, tip := PathTo(rules, plots, id)[n - 1].id, db.tip.value.id;
      && left in plots && tip in plots
      && (left == tip ==> n == ForkPoint(rules, plots, db, id) == |MainThread(rules, plots, db)|)
      && (left != tip ==> Beats(plots, tip, left))
  {
    hide *;
    var b := PathTo(rules, plots, id);
    ForkAboveGenesis(rules, plots, db, id);
    AncestorFacts(rules, plots, db, id, n - 1);
    TipBeatsKnown(plots, db, b[n - 1].id);
    if b[n - 1].id == db.tip.value.id {
      TakePrefix(b, n);
      CommonIs(MainThread(rules, plots, db), b[..|b| - 1], n);
    }
  }

  lemma TakePrefix(b: Thread, n: nat)
    requires n < |b|
    ensures b[..|b| - 1][..n] == b[..n]
  {
  }

  lemma TipBeatsKnown(plots: Plots, db: Database, x: PlotID)
    requires TipIsBest(plots, db) && Known(db, x) && x in plots
    ensures db.tip.Some? && db.tip.value.id in plots
    ensures x != db.tip.value.id ==> Beats(plots, db.tip.value.id, x)
  {
  }

  /** A proper ancestor is stored and known, its path is the part of the path below it. */
  lemma AncestorFacts(rules: Rules, plots: Plots, db: Database, id: PlotID, h: nat)
    requires LedgerOk(rules, plots, db) && id in plots && h + 1 < |PathTo(rules, plots, id)|
    ensures db.tip.Some? && MainThread(rules, plots, db) == PathTo(rules, plots, db.tip.value.id)
    ensures var b := PathTo(rules, plots, id);
      && b[h].id in plots && Known(db, b[h].id)
      && PathTo(rules, plots, b[h].id) == b[..h + 1]
      && plots[b[h].id].plot.header.height == h
  {
    assert TreeOk(plots, rules.genesisID) && BranchesOk(rules, plots, db);
    hide LedgerOk, TreeOk, BranchesOk;
    PathLength(plots, rules.genesisID, id);
    PathPrefix(plots, rules.genesisID, id, h);
    AncestorsKnown(rules, plots, db, id, h);
  }

  /** When something was disconnected, the way back parts from the new branch where the way there did. */
  lemma ForkOfTheWayBack(rules: Rules, plots: Plots, db: Database, mid: Database, id: PlotID, n: nat)
    requires LedgerOk(rules, plots, db) && TipIsBest(plots, db) && id in plots && id != rules.genesisID
    requires ForkPoint(rules, plots, db, id) <= n < |PathTo(rules, plots, id)|
    requires n >= 1 && PathTo(rules, plots, id)[n - 1].id != db.tip.value.id
    requires MainThread(rules, plots, mid) == PathTo(rules, plots, id)[..n]
    ensures ForkPoint(rules, plots, mid, db.tip.value.id) == ForkPoint(rules, plots, db, id)
              < |MainThread(rules, plots, db)|
    ensures db.tip.value.id != rules.genesisID
  {
    hide *;
    var a, b, c := MainThread(rules, plots, db), PathTo(rules, plots, id), ForkPoint(rules, plots, db, id);
    LedgerFacts(rules, plots, db);
    ForkAboveGenesis(rules, plots, db, id);
    PathEnd(rules, plots, db.tip.value.id);
    if c == |a| {
      SamePrefix(a, b, c, c - 1);
      if n == c {
        assert false;
      } else {
        TipIsNoAncestor(rules, plots, db, id, n);
        assert false;
      }
    }
    CommonMeans(a, b[..|b| - 1]);
    WayBack(a, b, c, n);
    ForkPointMeans(rules, plots, mid, db.tip.value.id);
  }

  lemma ForkPointMeans(rules: Rules, plots: Plots, db: Database, id: PlotID)
    requires PathTo(rules, plots, id) != []
    ensures ForkPoint(rules, plots, db, id)
            == Common(MainThread(rules, plots, db), PathTo(rules, plots, id)[..|PathTo(rules, plots, id)| - 1])
  {
  }

  /** A side plot cannot have the tip below it: it would beat the tip. */
  lemma TipIsNoAncestor(rules: Rules, plots: Plots, db: Database, id: PlotID, n: nat)
    requires LedgerOk(rules, plots, db) && TipIsBest(plots, db) && id in plots && id != rules.genesisID
    requires var a, b := MainThread(rules, plots, db), PathTo(rules, plots, id);
      1 <= |a| < n < |b| && b[n - 1].id != db.tip.value.id && a[|a| - 1].id == db.tip.value.id
    ensures var a := MainThread(rules, plots, db);
      a[|a| - 1] != PathTo(rules, plots, id)[|a| - 1]
  {
    hide *;
    var a, b := MainThread(rules, plots, db), PathTo(rules, plots, id);
    LedgerFacts(rules, plots, db);
    AncestorFacts(rules, plots, db, id, n - 1);
    var left := b[n - 1].id;
    TipBeatsKnown(plots, db, left);
    assert b[..n][|a| - 1] == b[|a| - 1];
    DescendantBeats(rules, plots, left, |a| - 1);
    BeatsIsStrictTotalOrder(plots, left, db.tip.value.id, left);
  }

  lemma WayBack(a: Thread, b: Thread, c: nat, n: nat)
    requires 1 <= c < |a| && c <= n < |b| && a[..c] == b[..c]
    requires c < |b| - 1 ==> a[c] != b[c]
    ensures Common(b[..n], a[..|a| - 1]) == c
  {
    assert b[..n][..c] == b[..c] && a[..|a| - 1][..c] == a[..c];
    CommonIs(b[..n], a[..|a| - 1], c);
  }

  /** The marks of both paths, before the reorganisation. */
  lemma MarksBefore(rules: Rules, plots: Plots, db: Database, id: PlotID, n: nat)
    requires LedgerOk(rules, plots, db) && id in plots && id != rules.genesisID
    requires ForkPoint(rules, plots, db, id) <= n < |PathTo(rules, plots, id)|
    ensures var a, b, c := MainThread(rules, plots, db), PathTo(rules, plots, id), ForkPoint(rules, plots, db, id);
      && c <= |a|
      && (forall i :: 0 <= i < |a[c..]| ==> a[c..][i].id in db.branches && db.branches[a[c..][i].id] == MAIN)
      && (forall i :: 0 <= i < |b[c..n]| ==> b[c..n][i].id in db.branches && db.branches[b[c..n][i].id] == SIDE)
  {
    hide *;
    var a, b, c := MainThread(rules, plots, db), PathTo(rules, plots, id), ForkPoint(rules, plots, db, id);
    LedgerFacts(rules, plots, db);
    ForkAboveGenesis(rules, plots, db, id);
    forall i | 0 <= i < |a[c..]| ensures a[c..][i].id in db.branches && db.branches[a[c..][i].id] == MAIN {
      MainIsKnown(rules, db, a, c + i);
      MarkOf(db, a[c + i].id);
    }
    forall i | 0 <= i < |b[c..n]| ensures b[c..n][i].id in db.branches && db.branches[b[c..n][i].id] == SIDE {
      SideBefore(rules, plots, db, id, c + i);
    }
  }

  lemma MarkOf(db: Database, id: PlotID)
    requires BranchOf(db, id) != UNKNOWN
    ensures id in db.branches && db.branches[id] == BranchOf(db, id)
  {
  }

  /** A proper ancestor past the fork is a side plot. */
  lemma SideBefore(rules: Rules, plots: Plots, db: Database, id: PlotID, i: nat)
    requires LedgerOk(rules, plots, db) && id in plots && id != rules.genesisID
    requires ForkPoint(rules, plots, db, id) <= i < |PathTo(rules, plots, id)| - 1
    ensures var x := PathTo(rules, plots, id)[i].id; x in db.branches && db.branches[x] == SIDE
  {
    var b := PathTo(rules, plots, id);
    LedgerFacts(rules, plots, db);
    assert BranchesMatch(db, MainThread(rules, plots, db));
    hide LedgerOk, StoreOk, TreeOk, BranchesOk, Reflects, ValidThread, PathTo, MainThread, ForkPoint, OnThread;
    ForkAboveGenesis(rules, plots, db, id);
    AncestorFacts(rules, plots, db, id, i);
    BeyondFork(rules, plots, db.tip.value.id, plots[id].plot.header.previous, i);
    assert b[..|b| - 1][i] == b[i];
    MarkOf(db, b[i].id);
  }

  /**
   * A failed reorganisation rolls back exactly: going back to the old tip cannot fail, and it restores
   * the tip, the height index, every branch mark, the imbalances and both indices.
   */
  lemma RollbackIsExact(rules: Rules, plots: Plots, db: Database, mid: Database, back: Database, id: PlotID, n: nat,
                        m: nat)
    requires LedgerOk(rules, plots, db) && TipIsBest(plots, db) && id in plots && id != rules.genesisID
    requires WentOver(rules, plots, db, mid, id, n) && n < |PathTo(rules, plots, id)|
    requires n >= 1 && PathTo(rules, plots, id)[n - 1].id != db.tip.value.id
    requires MainThread(rules, plots, mid) == PathTo(rules, plots, id)[..n]
    requires WentOver(rules, plots, mid, back, db.tip.value.id, m)
    requires m <= |MainThread(rules, plots, db)| && Reflects(rules, back, MainThread(rules, plots, db)[..m])
    ensures m == |MainThread(rules, plots, db)| && back == db
  {
    hide *;
    var a, b, c := MainThread(rules, plots, db), PathTo(rules, plots, id), ForkPoint(rules, plots, db, id);
    LedgerFacts(rules, plots, db);
    WentOverMeans(rules, plots, db, mid, id, n);
    ForkOfTheWayBack(rules, plots, db, mid, id, n);
    MarksBefore(rules, plots, db, id, n);
    WentOverMeans(rules, plots, mid, back, db.tip.value.id, m);
    if m < |a| {
      ValidPrefix(rules, a, m + 1);
      assert false;
    }
    assert a[..m] == a && a[c..m] == a[c..];
    MarksRestored(db.branches, a[c..], b[c..n]);
    BackAndForth(b, c, n);
    ReflectionIsUnique(rules, db, back, a);
  }

  lemma LedgerFacts(rules: Rules, plots: Plots, db: Database)
    requires LedgerOk(rules, plots, db)
    ensures db.tip.Some? && MainThread(rules, plots, db) == PathTo(rules, plots, db.tip.value.id)
    ensures Reflects(rules, db, MainThread(rules, plots, db)) && ValidThread(rules, MainThread(rules, plots, db))
    ensures StoreOk(rules, plots) && TreeOk(plots, rules.genesisID) && BranchesOk(rules, plots, db)
    ensures db.tip.value.id in plots
  {
  }

  lemma WentOverMeans(rules: Rules, plots: Plots, db: Database, next: Database, id: PlotID, n: nat)
    requires WentOver(rules, plots, db, next, id, n)
    ensures var a, b, c := MainThread(rules, plots, db), PathTo(rules, plots, id), ForkPoint(rules, plots, db, id);
      && c <= n <= |b| && c <= |a|
      && next.branches == Marked(Marked(db.branches, a[c..], SIDE), b[c..n], MAIN)
      && (n < |b| ==> !ValidThread(rules, b[..n + 1]))
  {
    hide PathTo, MainThread, ForkPoint, ValidThread, Marked;
  }

  lemma BackAndForth(b: Thread, c: nat, n: nat)
    requires c <= n <= |b|
    ensures b[..n][c..] == b[c..n]
  {
  }

  // ---------- storing, side plots, new tips ----------

  /** A plot nobody knows is one nobody builds on. */
  lemma UnknownIsLeaf(rules: Rules, plots: Plots, db: Database, id: PlotID)
    requires RulesOk(rules) && LedgerOk(rules, plots, db) && !Known(db, id)
    requires id > 0
    ensures Leaf(plots, id)
  {
    forall i | i in plots ensures plots[i].plot.header.previous != id {
      assert PlotOk(rules, plots, i);
    }
  }

  /** Storing an unknown plot leaves the ledger consistent and the tip the best. */
  lemma StoreKeepsLedger(rules: Rules, plots: Plots, db: Database, id: PlotID, stored: Stored)
    requires LedgerOk(rules, plots, db) && Leaf(plots, id) && MayStore(rules, plots, id, stored.plot)
    requires !Known(db, id) && Known(db, stored.plot.header.previous) && TipIsBest(plots, db)
    ensures LedgerOk(rules, plots[id := stored], db) && TipIsBest(plots[id := stored], db)
    ensures MainThread(rules, plots[id := stored], db) == MainThread(rules, plots, db)
    ensures Holds(plots[id := stored], MainThread(rules, plots, db))
  {
    hide *;
    LedgerFacts(rules, plots, db);
    TipIsKnown(rules, plots, db);
    var plots' := plots[id := stored];
    StoreAdds(rules, plots, id, stored);
    StoredBranches(rules, plots, db, id, stored);
    StoredTip(plots, db, id, stored);
    LedgerFromFacts(rules, plots', db, MainThread(rules, plots, db));
    PathFacts(rules, plots', db.tip.value.id);
  }

  lemma LedgerFromFacts(rules: Rules, plots: Plots, db: Database, main: Thread)
    requires StoreOk(rules, plots) && BranchesOk(rules, plots, db)
    requires db.tip.Some? && db.tip.value.id in plots && PathTo(rules, plots, db.tip.value.id) == main
    requires Reflects(rules, db, main) && ValidThread(rules, main)
    ensures LedgerOk(rules, plots, db) && MainThread(rules, plots, db) == main
  {
  }

  lemma StoredBranches(rules: Rules, plots: Plots, db: Database, id: PlotID, stored: Stored)
    requires BranchesOk(rules, plots, db) && Known(db, stored.plot.header.previous)
    ensures BranchesOk(rules, plots[id := stored], db)
  {
  }

  lemma StoredTip(plots: Plots, db: Database, id: PlotID, stored: Stored)
    requires TipIsBest(plots, db) && !Known(db, id) && db.tip.Some? && Known(db, db.tip.value.id)
    ensures TipIsBest(plots[id := stored], db) && db.tip.value.id != id
  {
  }

  lemma TipIsKnown(rules: Rules, plots: Plots, db: Database)
    requires LedgerOk(rules, plots, db)
    ensures Known(db, db.tip.value.id)
  {
    var a := MainThread(rules, plots, db);
    PathEnd(rules, plots, db.tip.value.id);
    assert OnThread(a, a[|a| - 1].id);
    assert BranchOf(db, a[|a| - 1].id) == MAIN;
  }

  /** Marking a stored plot as a side plot. */
  lemma SideKeepsLedger(rules: Rules, plots: Plots, db: Database, id: PlotID)
    requires LedgerOk(rules, plots, db) && TipIsBest(plots, db) && id in plots && !Known(db, id)
    requires !Beats(plots, id, db.tip.value.id)
    ensures var next := db.(branches := db.branches[id := SIDE]);
      LedgerOk(rules, plots, next) && TipIsBest(plots, next)
      && MainThread(rules, plots, next) == MainThread(rules, plots, db)
  {
    hide Reflects, ValidThread, BranchesOk, StoreOk, PathTo;
    var next, a := db.(branches := db.branches[id := SIDE]), MainThread(rules, plots, db);
    TipIsKnown(rules, plots, db);
    SideReflects(rules, db, a, id);
    SideBranches(rules, plots, db, id);
    BeatsIsStrictTotalOrder(plots, id, db.tip.value.id, id);
    forall x | Known(next, x) && x in plots && x != next.tip.value.id ensures Beats(plots, next.tip.value.id, x) {
      if x != id {
        assert Known(db, x);
      }
    }
  }

  /** A side mark touches neither the thread nor the queue. */
  lemma SideStands(rules: Rules, plots: Plots, db: Database, queue: seq<Representation>, cache: map<PubKey, int>,
                   id: PlotID)
    requires LedgerOk(rules, plots, db) && TipIsBest(plots, db) && id in plots && !Known(db, id)
    requires !Beats(plots, id, db.tip.value.id)
    requires Stands(rules, plots, db, queue, MainThread(rules, plots, db))
    ensures var next := db.(branches := db.branches[id := SIDE]);
      && LedgerOk(rules, plots, next) && TipIsBest(plots, next)
      && MainThread(rules, plots, next) == MainThread(rules, plots, db)
      && Stands(rules, plots, next, queue, MainThread(rules, plots, db))
      && (SettledOn(db, queue, cache) ==> SettledOn(next, queue, cache))
      && (AccountedOn(rules, db, queue, cache) ==> AccountedOn(rules, next, queue, cache))
  {
    hide Beats, TipIsBest, AccountedOn;
    SideKeepsLedger(rules, plots, db, id);
    SameAccount(rules, db, db.(branches := db.branches[id := SIDE]), queue, cache);
  }

  /** Tip and imbalances decide what queue and cache stand for. */
  lemma SameAccount(rules: Rules, db: Database, next: Database, queue: seq<Representation>, cache: map<PubKey, int>)
    requires next.tip == db.tip && next.imbalances == db.imbalances
    ensures SettledOn(db, queue, cache) ==> SettledOn(next, queue, cache)
    ensures AccountedOn(rules, db, queue, cache) ==> AccountedOn(rules, next, queue, cache)
  {
    if AccountedOn(rules, db, queue, cache) {
      var applied :| AccountedBy(rules, db, queue, cache, applied);
      assert AccountedBy(rules, next, queue, cache, applied);
    }
  }

  lemma SideReflects(rules: Rules, db: Database, chain: Thread, id: PlotID)
    requires Reflects(rules, db, chain) && BranchOf(db, id) != MAIN
    ensures Reflects(rules, db.(branches := db.branches[id := SIDE]), chain)
  {
    var next := db.(branches := db.branches[id := SIDE]);
    forall x ensures BranchOf(next, x) == MAIN <==> OnThread(chain, x) {
      assert BranchOf(db, x) == MAIN <==> OnThread(chain, x);
    }
  }

  lemma SideBranches(rules: Rules, plots: Plots, db: Database, id: PlotID)
    requires BranchesOk(rules, plots, db) && id in plots
    ensures BranchesOk(rules, plots, db.(branches := db.branches[id := SIDE]))
  {
    var next := db.(branches := db.branches[id := SIDE]);
    assert forall x :: Known(next, x) <==> Known(db, x) || x == id;
  }

  /** Only the new plot can become known by a reorganisation towards it. */
  lemma KnownAfter(rules: Rules, plots: Plots, db: Database, next: Database, id: PlotID, n: nat, x: PlotID)
    requires LedgerOk(rules, plots, db) && id in plots && id != rules.genesisID
    requires WentOver(rules, plots, db, next, id, n) && Known(next, x) && x != id
    ensures Known(db, x)
  {
    hide LedgerOk, PathTo, MainThread, ForkPoint, StoreOk, TreeOk, BranchesOk, Reflects, ValidThread, WentOver, IdsOn;
    var a, b, c := MainThread(rules, plots, db), PathTo(rules, plots, id), ForkPoint(rules, plots, db, id);
    LedgerFacts(rules, plots, db);
    WentOverMeans(rules, plots, db, next, id, n);
    MarkAfter(rules, plots, db, next, id, n, x);
    PathEnd(rules, plots, id);
    if x in IdsOn(b[c..n]) {
      var i := IndexIn(b, c, n, x);
      AncestorsKnown(rules, plots, db, id, i);
    } else if x in IdsOn(a[c..]) {
      assert a[c..] == a[c..|a|];
      var i := IndexIn(a, c, |a|, x);
      MainIsKnown(rules, db, a, i);
    }
  }

  /** Nothing known is forgotten by a reorganisation, and its plot is known when it succeeds. */
  lemma KnownStays(rules: Rules, plots: Plots, db: Database, next: Database, id: PlotID, n: nat)
    requires LedgerOk(rules, plots, db) && id in plots && WentOver(rules, plots, db, next, id, n)
    requires LedgerOk(rules, plots, next) && next.tip.Some? && next.tip.value.id == id
    ensures forall x :: Known(db, x) || x == id ==> Known(next, x)
  {
    hide *;
    LedgerFacts(rules, plots, db);
    PathFacts(rules, plots, id);
    PathFacts(rules, plots, db.tip.value.id);
    BranchesAfter(rules, plots, db, next, id, n);
    TipIsKnown(rules, plots, next);
  }

  lemma SideKnown(db: Database, id: PlotID)
    ensures forall x :: Known(db, x) || x == id ==> Known(db.(branches := db.branches[id := SIDE]), x)
  {
    var next := db.(branches := db.branches[id := SIDE]);
    forall x | Known(db, x) || x == id ensures Known(next, x) {
      assert BranchOf(next, x) == if x == id then SIDE else BranchOf(db, x);
    }
  }

  /** Storing a plot that is either known in the end or has an invalid thread. */
  lemma UnknownAfter(rules: Rules, plots: Plots, plots': Plots, db: Database, db': Database, id: PlotID, stored: Stored,
                     ok: bool)
    requires StoreOk(rules, plots) && Leaf(plots, id) && MayStore(rules, plots, id, stored.plot)
    requires UnknownIsInvalid(rules, plots, db) && plots' == plots[id := stored]
    requires forall x :: Known(db, x) || (x == id && ok) ==> Known(db', x)
    requires !ok ==> !ValidThread(rules, PathTo(rules, plots', id))
    ensures UnknownIsInvalid(rules, plots', db')
  {
    hide StoreOk, MayStore, Leaf, PathTo, ValidThread, Known;
    StoreAdds(rules, plots, id, stored);
  }

  lemma IndexIn(chain: Thread, lo: nat, hi: nat, x: PlotID) returns (i: nat)
    requires lo <= hi <= |chain| && x in IdsOn(chain[lo..hi])
    ensures lo <= i < hi && chain[i].id == x
  {
    var j :| 0 <= j < |chain[lo..hi]| && chain[lo..hi][j].id == x;
    i := lo + j;
  }

  lemma MainIsKnown(rules: Rules, db: Database, chain: Thread, h: nat)
    requires Reflects(rules, db, chain) && h < |chain|
    ensures BranchOf(db, chain[h].id) == MAIN
  {
    assert OnThread(chain, chain[h].id);
  }

  /** A better plot that connected is the best of all. */
  lemma NewTipIsBest(rules: Rules, plots: Plots, db: Database, next: Database, id: PlotID, n: nat)
    requires LedgerOk(rules, plots, db) && TipIsBest(plots, db) && id in plots && id != rules.genesisID
    requires Beats(plots, id, db.tip.value.id)
    requires WentOver(rules, plots, db, next, id, n) && next.tip.Some? && next.tip.value.id == id
    ensures TipIsBest(plots, next)
  {
    LedgerFacts(rules, plots, db);
    hide LedgerOk, WentOver, Beats;
    forall x | Known(next, x) && x in plots && x != id ensures Beats(plots, id, x) {
      KnownAfter(rules, plots, db, next, id, n, x);
      if x != db.tip.value.id {
        TipBeatsKnown(plots, db, x);
      }
      BeatsIsStrictTotalOrder(plots, id, db.tip.value.id, x);
    }
  }

  /** The whole new branch is connected: its plot is the tip, and the best. */
  lemma WentAllTheWay(rules: Rules, plots: Plots, db: Database, next: Database, id: PlotID, n: nat)
    requires LedgerOk(rules, plots, db) && TipIsBest(plots, db) && id in plots && id != rules.genesisID
    requires Beats(plots, id, db.tip.value.id)
    requires WentOver(rules, plots, db, next, id, n) && n == |PathTo(rules, plots, id)|
    requires Reflects(rules, next, PathTo(rules, plots, id)[..n]) && ValidThread(rules, PathTo(rules, plots, id)[..n])
    ensures PathTo(rules, plots, id)[..n] == PathTo(rules, plots, id)
    ensures LedgerOk(rules, plots, next) && TipIsBest(plots, next)
    ensures MainThread(rules, plots, next) == PathTo(rules, plots, id)
    ensures next.tip.Some? && next.tip.value.id == id
  {
    hide *;
    LedgerFacts(rules, plots, db);
    PathEnd(rules, plots, id);
    ReorganisedLedgerOk(rules, plots, db, next, id, n);
    LedgerFacts(rules, plots, next);
    NewTipIsBest(rules, plots, db, next, id, n);
  }

  /** Part of the new branch is connected: the way back starts from a consistent ledger. */
  lemma WentPartOfTheWay(rules: Rules, plots: Plots, db: Database, next: Database, id: PlotID, n: nat)
    requires LedgerOk(rules, plots, db) && TipIsBest(plots, db) && id in plots && id != rules.genesisID
    requires WentOver(rules, plots, db, next, id, n) && n < |PathTo(rules, plots, id)|
    requires Reflects(rules, next, PathTo(rules, plots, id)[..n]) && ValidThread(rules, PathTo(rules, plots, id)[..n])
    ensures LedgerOk(rules, plots, next) && MainThread(rules, plots, next) == PathTo(rules, plots, id)[..n]
    ensures n >= 1 && next.tip.Some? && next.tip.value.id == PathTo(rules, plots, id)[n - 1].id
    ensures next.tip.value.id in plots
    ensures next.tip.value.id == db.tip.value.id ==>
              n == ForkPoint(rules, plots, db, id) == |MainThread(rules, plots, db)|
    ensures next.tip.value.id != db.tip.value.id ==>
              Beats(plots, db.tip.value.id, next.tip.value.id) && db.tip.value.id != rules.genesisID
    ensures !ValidThread(rules, PathTo(rules, plots, id))
  {
    hide *;
    LedgerFacts(rules, plots, db);
    WentOverMeans(rules, plots, db, next, id, n);
    OldTipBeatsWhatIsLeft(rules, plots, db, id, n);
    ReorganisedLedgerOk(rules, plots, db, next, id, n);
    LedgerFacts(rules, plots, next);
    if next.tip.value.id != db.tip.value.id {
      ForkOfTheWayBack(rules, plots, db, next, id, n);
    }
    if ValidThread(rules, PathTo(rules, plots, id)) {
      ValidPrefix(rules, PathTo(rules, plots, id), n + 1);
      assert false;
    }
  }

  lemma KnownIsStored(rules: Rules, plots: Plots, db: Database, id: PlotID)
    requires BranchesOk(rules, plots, db) && Known(db, id)
    ensures id in plots
  {
  }

  /** The stored plot is better than the ledger's tip. */
  predicate BeatsTip(plots: Plots, db: Database, id: PlotID) {
    && db.tip.Some? && id in plots && db.tip.value.id in plots
    && id != db.tip.value.id && Beats(plots, id, db.tip.value.id)
  }

  lemma BeatsTipMeans(plots: Plots, db: Database, id: PlotID)
    ensures BeatsTip(plots, db, id) <==>
              && db.tip.Some? && id in plots && db.tip.value.id in plots
              && id != db.tip.value.id && Beats(plots, id, db.tip.value.id)
  {
  }

  /** A better plot outranks the tip. */
  lemma BetterOutranks(plots: Plots, db: Database, id: PlotID)
    ensures BeatsTip(plots, db, id) <==>
              db.tip.Some? && id != db.tip.value.id && Outranks(plots, id, db.tip.value.id)
  {
    if db.tip.Some? && id in plots && db.tip.value.id in plots {
      BeatsIsOutranking(plots, id, db.tip.value.id);
    }
  }

  /** The tip beats every other stored plot whose thread is valid, known or not. */
  lemma TipBeatsValid(rules: Rules, plots: Plots, db: Database, id: PlotID)
    requires TipIsBest(plots, db) && UnknownIsInvalid(rules, plots, db)
    requires id in plots && id != db.tip.value.id && ValidThread(rules, PathTo(rules, plots, id))
    ensures Beats(plots, db.tip.value.id, id)
  {
    hide ValidThread, PathTo, Beats;
  }

  /**
   * Two nodes that have stored the same plots, in whatever order and pruned or not, have main threads of
   * equal work.
   */
  lemma SamePlotsSameWork(rules: Rules, rules': Rules, plots: Plots, plots': Plots, db: Database, db': Database)
    requires rules' == rules.(prune := rules'.prune)
    requires plots.Keys == plots'.Keys && forall i :: i in plots ==> plots'[i].plot == plots[i].plot
    requires LedgerOk(rules, plots, db) && TipIsBest(plots, db) && UnknownIsInvalid(rules, plots, db)
    requires LedgerOk(rules', plots', db') && TipIsBest(plots', db') && UnknownIsInvalid(rules', plots', db')
    ensures TipWork(plots, db) == TipWork(plots', db')
  {
    hide LedgerOk, TipIsBest, UnknownIsInvalid;
    LedgerFacts(rules, plots, db);
    LedgerFacts(rules', plots', db');
    NoLessWork(rules, rules', plots, plots', db, db');
    NoLessWork(rules', rules, plots', plots, db', db);
  }

  lemma NoLessWork(rules: Rules, rules': Rules, plots: Plots, plots': Plots, db: Database, db': Database)
    requires rules' == rules.(prune := rules'.prune)
    requires plots.Keys == plots'.Keys && forall i :: i in plots ==> plots'[i].plot == plots[i].plot
    requires TipIsBest(plots, db) && UnknownIsInvalid(rules, plots, db)
    requires db'.tip.Some? && db'.tip.value.id in plots'
             && ValidThread(rules', PathTo(rules', plots', db'.tip.value.id))
    ensures TipWork(plots, db) >= TipWork(plots', db')
  {
    hide TipIsBest, UnknownIsInvalid, Path, NoRepeats, Funded, IsThread, ThreadEffects;
    var id := db'.tip.value.id;
    PathIgnoresTimes(plots, plots', rules.genesisID, id);
    BestHasTip(plots, db);
    if id != db.tip.value.id {
      TipBeatsValid(rules, plots, db, id);
    }
  }

  lemma BestHasTip(plots: Plots, db: Database)
    requires TipIsBest(plots, db)
    ensures db.tip.Some? && db.tip.value.id in plots
  {
  }

  /** The cumulative work of the main thread. */
  function TipWork(plots: Plots, db: Database): nat {
    if db.tip.Some? && db.tip.value.id in plots then plots[db.tip.value.id].plot.header.threadWork else 0
  }

  lemma NoTipNoThread(rules: Rules, plots: Plots, db: Database)
    ensures db.tip.None? ==> MainThread(rules, plots, db) == []
    ensures EmptyDatabase.tip.None? && MainThread(rules, map[], EmptyDatabase) == []
  {
  }

  lemma MainThreadIs(rules: Rules, plots: Plots, db: Database)
    ensures db.tip.Some? ==> MainThread(rules, plots, db) == PathTo(rules, plots, db.tip.value.id)
  {
  }

  lemma NoTipNoWork(plots: Plots, db: Database)
    ensures db.tip.None? ==> TipWork(plots, db) == 0
  {
  }

  /** Storing another plot and moving to it only if it beats the tip never lowers the main thread's work. */
  lemma TipWorkAfter(plots: Plots, plots': Plots, db: Database, db': Database, id: PlotID, stored: Stored)
    requires db.tip.Some? && db.tip.value.id in plots && id != db.tip.value.id
    requires plots' == plots || plots' == plots[id := stored]
    requires db'.tip == db.tip || (db'.tip.Some? && db'.tip.value.id == id && BeatsTip(plots', db, id))
    ensures TipWork(plots', db') >= TipWork(plots, db)
  {
  }

  lemma HashIsPositive(rules: Rules, header: PlotHeader)
    requires RulesOk(rules)
    ensures rules.hash(header) > 0
  {
  }

  lemma StandsInStore(rules: Rules, plots: Plots, plots': Plots, db: Database, queue: seq<Representation>,
                      chain: Thread)
    requires Stands(rules, plots, db, queue, chain) && Holds(plots', chain)
    ensures Stands(rules, plots', db, queue, chain)
  {
  }

  // ---------- genesis ----------

  /** The empty database reflects the empty thread. */
  lemma BlankStands(rules: Rules, plots: Plots)
    ensures Stands(rules, plots, EmptyDatabase, [], [])
  {
    assert Settle(map[], []) == map[];
  }

  lemma GenesisIsValid(rules: Rules, id: PlotID, plot: Plot)
    requires GenesisPlot(plot)
    ensures ValidThread(rules, [Entry(id, plot)])
  {
    var chain := [Entry(id, plot)];
    assert LinkOk(chain, 0);
    assert IsThread(chain);
    assert Front(chain) == [];
    assert plot.reps[..0] == [];
    assert EffectsOf(plot.reps[..0], None) == [] && EffectOf(plot.reps[0], None) == [];
    assert EffectsAt(chain, 0) == EffectsOf(plot.reps, None) == [];
    assert ThreadEffects(chain) == [];
    forall p, q | At(chain, p) && At(chain, q) ensures p == q {
    }
  }

  /** A store of genesis alone is a store in order. */
  lemma GenesisStore(rules: Rules, plots: Plots, id: PlotID, stored: Stored)
    requires RulesOk(rules) && id == rules.genesisID && rules.hash(stored.plot.header) == id
    requires GenesisPlot(stored.plot) && Bounded(stored.plot) && plots == map[id := stored]
    requires id <= stored.plot.header.target
    ensures StoreOk(rules, plots) && PathTo(rules, plots, id) == [Entry(id, stored.plot)]
  {
    hide WellShaped, SeriesRight, Bounded;
    HashIsPositive(rules, stored.plot.header);
    assert NodeOk(plots, rules.genesisID, id);
    assert PlotOk(rules, plots, id);
  }

  lemma GenesisBranches(rules: Rules, plots: Plots, db: Database, id: PlotID, stored: Stored)
    requires id == rules.genesisID && plots == map[id := stored]
    requires db.branches == map[id := MAIN] && db.tip == Some(Tip(id, 0))
    ensures BranchesOk(rules, plots, db) && TipIsBest(plots, db) && UnknownIsInvalid(rules, plots, db)
  {
    hide Beats, ValidThread, PathTo;
    assert Known(db, id);
  }

  /** A ledger of genesis alone is consistent, and genesis is the best tip. */
  lemma GenesisLedger(rules: Rules, plots: Plots, db: Database, id: PlotID, stored: Stored)
    requires RulesOk(rules) && id == rules.genesisID && rules.hash(stored.plot.header) == id
    requires GenesisPlot(stored.plot) && Bounded(stored.plot) && plots == map[id := stored]
    requires id <= stored.plot.header.target
    requires db.branches == map[id := MAIN] && Reflects(rules, db, [Entry(id, stored.plot)])
    ensures LedgerOk(rules, plots, db) && TipIsBest(plots, db) && UnknownIsInvalid(rules, plots, db)
    ensures MainThread(rules, plots, db) == [Entry(id, stored.plot)]
  {
    hide *;
    GenesisStore(rules, plots, id, stored);
    GenesisIsValid(rules, id, stored.plot);
    GenesisTip(rules, db, Entry(id, stored.plot));
    GenesisBranches(rules, plots, db, id, stored);
    LedgerFromFacts(rules, plots, db, [Entry(id, stored.plot)]);
  }

  /** Genesis is known once the ledger has a tip. */
  lemma GenesisKnown(rules: Rules, plots: Plots, db: Database)
    requires LedgerOk(rules, plots, db)
    ensures Known(db, rules.genesisID)
  {
    var a := MainThread(rules, plots, db);
    PathLength(plots, rules.genesisID, db.tip.value.id);
    MainIsKnown(rules, db, a, 0);
  }

  // ---------- queueing ----------

  /** What one application does to a cache map, in terms of what the cache stands for. */
  ghost predicate CacheMoved(m: Imbalances, cache: map<PubKey, int>, cache': map<PubKey, int>, tx: Representation) {
    forall k :: CacheView(cache', m, k) == CacheView(cache, m, k) + Delta(tx, k)
  }

  lemma CacheMovedFrom(m: Imbalances, cache: map<PubKey, int>, cache': map<PubKey, int>, tx: Representation)
    requires forall k :: CacheView(cache', m, k) == CacheView(cache, m, k) + Delta(tx, k)
    ensures CacheMoved(m, cache, cache', tx)
  {
  }

  lemma SettledCanSend(db: Database, queue: seq<Representation>, cache: map<PubKey, int>, tx: Representation)
    requires SettledOn(db, queue, cache)
    requires tx.byKey.Some? ==> CacheView(cache, db.imbalances, tx.byKey.value) >= 1
    ensures CanSend(db.imbalances, queue, tx)
  {
  }

  /**
   * Adding to a settled queue, exactly: once the cache has moved, queue and cache agree when the
   * representation is in the queue, and disagree when it was turned away.
   */
  lemma AddSettlesIff(db: Database, queue: seq<Representation>, cache: map<PubKey, int>, cache': map<PubKey, int>,
                      tx: Representation)
    requires SettledOn(db, queue, cache) && CacheMoved(db.imbalances, cache, cache', tx)
    requires tx.byKey != Some(tx.forKey)
    requires CanSend(db.imbalances, queue, tx) && IncludableAt(tx, db.tip.value.height + 1)
    ensures SettledOn(db, queue + [tx], cache') && !SettledOn(db, queue, cache')
  {
    hide Applicable, Net, CacheView, Bal, Funded, CanSend, IncludableAt;
    ApplicableStep(db.imbalances, queue, tx, db.tip.value.height);
    forall k ensures CacheView(cache', db.imbalances, k) == Bal(db.imbalances, k) + Net(queue + [tx], k) {
      NetConcat(queue, [tx], k);
      NetOne(tx, k);
    }
    assert CacheView(cache', db.imbalances, tx.forKey) == Bal(db.imbalances, tx.forKey) + Net(queue, tx.forKey) + 1;
  }

  /** A settled queue is accounted for by itself. */
  lemma SettledIsAccounted(rules: Rules, plots: Plots, db: Database, queue: seq<Representation>, chain: Thread,
                           cache: map<PubKey, int>)
    requires Stands(rules, plots, db, queue, chain) && SettledOn(db, queue, cache)
    ensures AccountedOn(rules, db, queue, cache)
  {
    hide SettledOn;
    LetThroughAll(rules, queue);
    assert AccountedBy(rules, db, queue, cache, queue);
  }

  /** Queueing keeps the account, also when the guard turns the representation away. */
  lemma AddIsAccounted(rules: Rules, db: Database, queue: seq<Representation>, cache: map<PubKey, int>,
                       cache': map<PubKey, int>, tx: Representation)
    requires AccountedOn(rules, db, queue, cache) && CacheMoved(db.imbalances, cache, cache', tx)
    requires tx.byKey.Some? ==> CacheView(cache, db.imbalances, tx.byKey.value) >= 1
    requires tx.byKey != Some(tx.forKey) && db.tip.Some? && IncludableAt(tx, db.tip.value.height + 1)
    ensures AccountedOn(rules, db, if rules.guard(tx) then queue else queue + [tx], cache')
  {
    hide SettledOn, CacheMoved, CacheView, IncludableAt;
    var applied :| AccountedBy(rules, db, queue, cache, applied);
    SettledCanSend(db, applied, cache, tx);
    AddSettlesIff(db, applied, cache, cache', tx);
    LetThroughStep(rules, applied, tx);
    assert queue + [] == queue;
    assert AccountedBy(rules, db, if rules.guard(tx) then queue else queue + [tx], cache', applied + [tx]);
  }

  /** Whatever is queued can be included in the next plot. */
  lemma AccountedMeans(rules: Rules, db: Database, queue: seq<Representation>, cache: map<PubKey, int>)
    requires AccountedOn(rules, db, queue, cache)
    ensures db.tip.Some? && forall tx :: tx in queue ==> IncludableAt(tx, db.tip.value.height + 1)
  {
    hide IncludableAt, Funded, Bal, Net;
    var applied :| AccountedBy(rules, db, queue, cache, applied);
    LetThroughContents(rules, applied);
  }

  lemma InSeries(tx: Representation, height: int)
    requires IncludableAt(tx, height)
    ensures CheckRepresentationSeries(tx, height)
  {
  }

  lemma AddKeepsQueue(rules: Rules, plots: Plots, db: Database, queue: seq<Representation>, chain: Thread,
                      tx: Representation)
    requires Stands(rules, plots, db, queue, chain) && Checked(rules, tx) && !rules.guard(tx)
    requires !tx.IsPlotroot() && tx.byKey != Some(tx.forKey) && CheckRepresentationSeries(tx, |chain|)
    requires tx.Id() !in db.repIndex && forall r :: r in queue ==> r.Id() != tx.Id()
    ensures Stands(rules, plots, db, queue + [tx], chain)
  {
    IndexTellsConfirmed(rules, db, chain, tx);
    QueueShapeBack(queue, tx);
  }

  lemma ConnectedMeans(rules: Rules, db: Database, plots: Plots, id: PlotID, plot: Plot)
    ensures var next := Connected(rules, db, plots, id, plot);
      next.tip == Some(Tip(id, plot.header.height)) && next.branches == db.branches[id := MAIN]
  {
  }

  lemma DisconnectedBranches(rules: Rules, db: Database, plots: Plots, id: PlotID, plot: Plot)
    ensures Disconnected(rules, db, plots, id, plot).branches == db.branches[id := SIDE]
  {
  }

  lemma GenesisCandidate(plots: Plots, id: PlotID, plot: Plot)
    requires GenesisPlot(plot) && id in plots && plots[id].plot == plot
    ensures Candidate(plots, [], Entry(id, plot))
  {
  }

  lemma GenesisTip(rules: Rules, db: Database, e: Entry)
    requires Reflects(rules, db, [e])
    ensures db.tip == Some(Tip(e.id, 0))
  {
  }

  lemma EmptyMarks(id: PlotID)
    ensures EmptyDatabase.branches[id := MAIN] == map[id := MAIN]
  {
  }

  /** An indexed representation is found through the height index. */
  lemma IndexedIsFound(rules: Rules, db: Database, chain: Thread, id: RepresentationID)
    requires Reflects(rules, db, chain)
    ensures id in db.repIndex ==> db.repIndex[id].height in db.heights
    ensures db.tip.Some? ==> db.tip.value.height + 1 == |chain|
  {
    if id in db.repIndex {
      assert InWindow(chain, Low(rules, |chain|), db.repIndex[id]);
    }
  }

  /** What standing on a thread and being settled say, part by part. */
  lemma StandingMeans(rules: Rules, plots: Plots, db: Database, queue: seq<Representation>, cache: map<PubKey, int>,
                      main: Thread)
    requires Stands(rules, plots, db, queue, main)
    ensures NoRepeats(main)
    ensures forall tx :: tx in queue ==> !Confirmed(main, tx.Id()) && Checked(rules, tx) && !rules.guard(tx)
    ensures SettledOn(db, queue, cache) ==>
              Funded(db.imbalances, queue) && forall tx :: tx in queue ==> IncludableAt(tx, |main|)
    ensures TipIsBest(plots, db) ==>
              forall id :: Known(db, id) && id != db.tip.value.id && id in plots ==> Beats(plots, db.tip.value.id, id)
    ensures BranchesOk(rules, plots, db) ==> forall id :: Known(db, id) ==> id in plots
  {
    hide NoRepeats, Beats, Funded, IncludableAt, Confirmed;
  }

  lemma MarkNone(branches: map<PlotID, BranchType>, chain: Thread, branch: BranchType)
    requires chain == []
    ensures Marked(branches, chain, branch) == branches
  {
  }

  lemma DownIdAt(chain: Thread, from: nat, d: nat)
    requires from <= |chain| && d < |chain| - from
    ensures DownIds(chain, from)[d] == chain[|chain| - 1 - d].id
  {
  }

  lemma UpIdAt(chain: Thread, from: nat, d: nat)
    requires from <= |chain| && d < |chain| - from
    ensures UpIds(chain, from)[d] == chain[from + d].id
  {
  }
}
