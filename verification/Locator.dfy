/** Finding where two nodes' threads part: the requester's list of ancestors and the responder's answer. */
module Locator {
  import opened Plots
  import opened LedgerSpec
  import opened LedgerDisk
  import opened Tree
  import opened ThreadState

  const MAX_PLOTS_PER_INV := 500

  /** How far below the start the i-th entry lies: 0, 1, ..., 11, then 13, 17, 25, 41, ... */
  function Offset(i: nat): nat {
    if i <= 11 then i else 9 + Pow2(i - 10)
  }

  lemma {:induction false} OffsetSteps(i: nat)
    ensures Offset(i + 1) - Offset(i) == if i <= 10 then 1 else Pow2(i - 10)
    ensures Pow2(i) >= 1 && Offset(i + 1) > Offset(i) >= i
  {
    assert Pow2(2) == 4 && Pow2(1) == 2;
    if i > 0 {
      OffsetSteps(i - 1);
    }
  }

  lemma StepDoubles(i: nat)
    ensures Offset(i + 2) - Offset(i + 1) == (Offset(i + 1) - Offset(i)) * (if i >= 10 then 2 else 1)
    ensures Offset(i + 1) > Offset(i)
  {
    OffsetSteps(i);
    OffsetSteps(i + 1);
    assert i == 10 ==> Pow2(1) == 2 && Pow2(0) == 1;
  }

  /** The entries from the i-th on, looked up by height below the start; genesis ends the list. */
  function Below(heights: map<int, PlotID>, genesisID: PlotID, start: int, i: nat): seq<PlotID>
    decreases start - Offset(i)
  {
    OffsetSteps(i);
    var h := start - Offset(i);
    if h <= 0 || h !in heights || heights[h] == genesisID then [genesisID]
    else [heights[h]] + Below(heights, genesisID, start, i + 1)
  }

  lemma BelowMeans(heights: map<int, PlotID>, genesisID: PlotID, start: int, i: nat)
    ensures var h := start - Offset(i);
      Below(heights, genesisID, start, i) ==
        if h <= 0 || h !in heights || heights[h] == genesisID then [genesisID]
        else [heights[h]] + Below(heights, genesisID, start, i + 1)
  {
  }

  lemma OffsetStarts()
    ensures Offset(0) == 0 && Offset(1) == 1
  {
  }

  function LocatorIDs(heights: map<int, PlotID>, genesisID: PlotID, start: Option<Tip>): seq<PlotID> {
    if start.None? || start.value.id == genesisID then [genesisID]
    else [start.value.id] + Below(heights, genesisID, start.value.height, 1)
  }

  // ---------- the requester ----------

  /** The list sent to a peer, from the tip or from a given stored plot; None if there is no such plot. */
  method SendFindCommonAncestor(ledger: LedgerDisk, plotStore: PlotStorage, genesisID: PlotID, startID: Option<PlotID>)
    returns (message: Option<seq<PlotID>>)
    ensures message.None? <==> startID.Some? && startID.value !in plotStore.plots
    ensures message.Some? ==>
      var start := if startID.None? then ledger.db.tip
                   else Some(Tip(startID.value, plotStore.plots[startID.value].plot.header.height));
      message.value == LocatorIDs(ledger.db.heights, genesisID, start)
  {
    var height, id := 0, startID;
    if startID.None? {
      var tip := ledger.GetThreadTip();
      if tip.Some? {
        id, height := Some(tip.value.id), tip.value.height;
      }
    } else {
      var header := plotStore.GetPlotHeader(startID.value);
      if header.None? {
        return None;
      }
      height := header.value.height;
    }
    var ids := WalkBack(ledger, genesisID, id, height);
    return Some(ids);
  }

  method WalkBack(ledger: LedgerDisk, genesisID: PlotID, startID: Option<PlotID>, start: int) returns (ids: seq<PlotID>)
    ensures ids ==
              LocatorIDs(ledger.db.heights, genesisID, if startID.None? then None else Some(Tip(startID.value, start)))
  {
    hide *;
    OffsetStarts();
    ghost var heights := ledger.db.heights;
    LocatorMeans(heights, genesisID, startID, start);
    var id, height, step := startID, start, 1;
    ids := [];
    ghost var all := LocatorIDs(heights, genesisID, if startID.None? then None else Some(Tip(startID.value, start)));
    ghost var rest := all;
    while id.Some?
      invariant step == Offset(|ids| + 1) - Offset(|ids|) && height == start - Offset(|ids|)
      invariant all == ids + rest
      invariant id.Some? && id.value != genesisID ==> rest == [id.value] + Below(heights, genesisID, start, |ids| + 1)
      invariant id.None? || id.value == genesisID ==> rest == [genesisID]
      decreases if id.Some? then 1 else 0, height
    {
      if id.value == genesisID {
        break;
      }
      StepDoubles(|ids|);
      BelowMeans(heights, genesisID, start, |ids| + 1);
      rest := Below(heights, genesisID, start, |ids| + 1);
      Shift(all, ids, id.value, rest);
      ids := ids + [id.value];
      var depth := height - step;
      if depth <= 0 {
        break;
      }
      id := GetPlotIDForHeight(ledger, depth);
      if |ids| > 10 {
        step := step * 2;
      }
      height := depth;
    }
    ids := ids + [genesisID];
  }

  method GetPlotIDForHeight(ledger: LedgerDisk, height: int) returns (id: Option<PlotID>)
    ensures id == if height in ledger.db.heights then Some(ledger.db.heights[height]) else None
  {
    id := ledger.GetPlotIDForHeight(height);
  }

  lemma Shift(all: seq<PlotID>, ids: seq<PlotID>, id: PlotID, rest: seq<PlotID>)
    requires all == ids + ([id] + rest)
    ensures all == ids + [id] + rest
  {
  }

  lemma LocatorMeans(heights: map<int, PlotID>, genesisID: PlotID, id: Option<PlotID>, start: int)
    ensures LocatorIDs(heights, genesisID, if id.None? then None else Some(Tip(id.value, start))) ==
      if id.None? || id.value == genesisID then [genesisID] else [id.value] + Below(heights, genesisID, start, 1)
  {
  }

  // ---------- what the list says ----------

  function DepthAt(start: nat, i: nat): nat {
    if Offset(i) < start then Offset(i) else start
  }

  ghost predicate Distinct(chain: Thread) {
    forall h, k :: 0 <= h < k < |chain| ==> chain[h].id != chain[k].id
  }

  /** The list holds the start's ancestors at exponentially growing depths, down to genesis. */
  ghost predicate Lists(ids: seq<PlotID>, chain: Thread, start: nat, from: nat)
    requires start < |chain|
  {
    && ids != []
    && (forall i :: 0 <= i < |ids| ==> ids[i] == chain[start - DepthAt(start, from + i)].id)
    && (|ids| > 1 ==> Offset(from + |ids| - 2) < start)
    && Offset(from + |ids| - 1) >= start
  }

  lemma OneMore(rest: seq<PlotID>, chain: Thread, start: nat, i: nat)
    requires start < |chain| && Offset(i) < start && Lists(rest, chain, start, i + 1)
    ensures Lists([chain[start - Offset(i)].id] + rest, chain, start, i)
  {
    hide Offset;
    var ids := [chain[start - Offset(i)].id] + rest;
    forall k | 0 <= k < |ids| ensures ids[k] == chain[start - DepthAt(start, i + k)].id {
      if k > 0 {
        assert ids[k] == rest[k - 1];
      }
    }
  }

  lemma JustGenesis(chain: Thread, start: nat, i: nat)
    requires start < |chain| && Offset(i) >= start
    ensures Lists([chain[0].id], chain, start, i)
  {
    hide Offset;
  }

  lemma {:induction false} BelowLists(heights: map<int, PlotID>, chain: Thread, start: nat, i: nat)
    requires HeightsMatch(heights, chain) && Distinct(chain) && start < |chain|
    ensures Lists(Below(heights, chain[0].id, start, i), chain, start, i)
    decreases start - Offset(i)
  {
    OffsetSteps(i);
    hide Offset, Lists;
    if start - Offset(i) > 0 {
      BelowLists(heights, chain, start, i + 1);
      OneMore(Below(heights, chain[0].id, start, i + 1), chain, start, i);
    } else {
      JustGenesis(chain, start, i);
    }
  }

  /** From a plot on the main thread, the whole list. */
  lemma LocatorLists(heights: map<int, PlotID>, chain: Thread, start: nat)
    requires HeightsMatch(heights, chain) && Distinct(chain) && start < |chain|
    ensures Lists(LocatorIDs(heights, chain[0].id, Some(Tip(chain[start].id, start))), chain, start, 0)
  {
    BelowLists(heights, chain, start, 1);
    OffsetStarts();
    hide Offset, Lists;
    if start > 0 {
      OneMore(Below(heights, chain[0].id, start, 1), chain, start, 0);
    } else {
      JustGenesis(chain, start, 0);
    }
  }

  lemma {:induction false} OffsetGrows(i: nat, j: nat)
    requires i < j
    ensures Offset(i) < Offset(j)
    decreases j
  {
    OffsetSteps(j - 1);
    hide Offset;
    if i < j - 1 {
      OffsetGrows(i, j - 1);
    }
  }

  /** The depths on the list before its last entry are offsets below the start. */
  lemma DepthsGrow(ids: seq<PlotID>, chain: Thread, start: nat, i: nat, j: nat)
    requires start < |chain| && Lists(ids, chain, start, 0) && i < j < |ids|
    ensures DepthAt(start, i) < DepthAt(start, j)
  {
    hide Offset;
    OffsetGrows(i, j);
    if i < |ids| - 2 {
      OffsetGrows(i, |ids| - 2);
    }
  }

  /** Heights fall strictly, the last entry is genesis, and the length is logarithmic in the start's height. */
  lemma LocatorShape(ids: seq<PlotID>, chain: Thread, start: nat)
    requires start < |chain| && Lists(ids, chain, start, 0)
    ensures forall i, j :: 0 <= i < j < |ids| ==> start - DepthAt(start, i) > start - DepthAt(start, j)
    ensures ids[|ids| - 1] == chain[0].id && ids[0] == chain[start].id
    ensures |ids| > 12 ==> 9 + Pow2(|ids| - 12) < start
  {
    hide *;
    ListEnds(ids, chain, start);
    OffsetFromTwelve(|ids|);
    forall i, j | 0 <= i < j < |ids| ensures start - DepthAt(start, i) > start - DepthAt(start, j) {
      DepthsGrow(ids, chain, start, i, j);
    }
  }

  lemma ListEnds(ids: seq<PlotID>, chain: Thread, start: nat)
    requires start < |chain| && Lists(ids, chain, start, 0)
    ensures ids != [] && ids[|ids| - 1] == chain[0].id && ids[0] == chain[start].id
    ensures |ids| > 1 ==> Offset(|ids| - 2) < start
  {
    OffsetStarts();
    hide Offset;
    assert ids[0] == chain[start - DepthAt(start, 0 + 0)].id;
    assert ids[|ids| - 1] == chain[start - DepthAt(start, 0 + (|ids| - 1))].id;
  }

  lemma OffsetFromTwelve(n: nat)
    ensures n > 12 ==> Offset(n - 2) == 9 + Pow2(n - 12)
  {
    assert n == 13 ==> Pow2(1) == 2;
  }

  // ---------- the responder ----------

  function Inventory(heights: map<int, PlotID>, height: int, limit: nat): seq<PlotID>
    decreases limit
  {
    if limit == 0 || height !in heights then []
    else [heights[height]] + Inventory(heights, height + 1, limit - 1)
  }

  /** Whether the plot is on this node's main thread, and if so the plots after it. */
  method OnFindCommonAncestor(ledger: LedgerDisk, plotStore: PlotStorage, id: PlotID)
    returns (found: bool, ids: seq<PlotID>)
    ensures found <==> id in plotStore.plots && BranchOf(ledger.db, id) == MAIN
    ensures ids == if found
                   then Inventory(ledger.db.heights, plotStore.plots[id].plot.header.height + 1, MAX_PLOTS_PER_INV)
                   else []
  {
    ids := [];
    var header := plotStore.GetPlotHeader(id);
    if header.None? {
      return false, ids;
    }
    if ledger.GetBranchType(id) != MAIN {
      return false, ids;
    }
    ids := CollectInventory(ledger, header.value.height + 1);
    return true, ids;
  }

  /** The main thread's plots from a height on, at most 500 of them. */
  method CollectInventory(ledger: LedgerDisk, from: int) returns (ids: seq<PlotID>)
    ensures ids == Inventory(ledger.db.heights, from, MAX_PLOTS_PER_INV)
  {
    hide Inventory;
    ids := [];
    var height := from;
    ghost var rest := Inventory(ledger.db.heights, from, MAX_PLOTS_PER_INV);
    while |ids| < MAX_PLOTS_PER_INV
      invariant |ids| <= MAX_PLOTS_PER_INV && height == from + |ids|
      invariant rest == Inventory(ledger.db.heights, height, MAX_PLOTS_PER_INV - |ids|)
      invariant ids + rest == Inventory(ledger.db.heights, from, MAX_PLOTS_PER_INV)
    {
      InventoryMeans(ledger.db.heights, height, MAX_PLOTS_PER_INV - |ids|);
      var nextID := ledger.GetPlotIDForHeight(height);
      if nextID.None? {
        break;
      }
      rest := Inventory(ledger.db.heights, height + 1, MAX_PLOTS_PER_INV - |ids| - 1);
      ids := ids + [nextID.value];
      height := height + 1;
    }
    InventoryMeans(ledger.db.heights, height, MAX_PLOTS_PER_INV - |ids|);
  }

  lemma InventoryMeans(heights: map<int, PlotID>, height: int, limit: nat)
    ensures Inventory(heights, height, limit) ==
      if limit == 0 || height !in heights then []
      else [heights[height]] + Inventory(heights, height + 1, limit - 1)
  {
  }

  /** Tries the IDs of a peer's list in order until one is on the main thread. */
  method AnswerFindCommonAncestor(ledger: LedgerDisk, plotStore: PlotStorage, ids: seq<PlotID>)
    returns (index: nat, inventory: seq<PlotID>)
    ensures index <= |ids|
    ensures forall i :: 0 <= i < index ==> ids[i] !in plotStore.plots || BranchOf(ledger.db, ids[i]) != MAIN
    ensures index < |ids| ==>
      && ids[index] in plotStore.plots && BranchOf(ledger.db, ids[index]) == MAIN
      && inventory ==
          Inventory(ledger.db.heights, plotStore.plots[ids[index]].plot.header.height + 1, MAX_PLOTS_PER_INV)
  {
    inventory := [];
    index := 0;
    while index < |ids|
      invariant index <= |ids|
      invariant forall i :: 0 <= i < index ==> ids[i] !in plotStore.plots || BranchOf(ledger.db, ids[i]) != MAIN
    {
      var found, reply := OnFindCommonAncestor(ledger, plotStore, ids[index]);
      if found {
        return index, reply;
      }
      index := index + 1;
    }
  }

  function ThreadIDs(chain: Thread): (ids: seq<PlotID>)
    ensures |ids| == |chain| && forall i :: 0 <= i < |ids| ==> ids[i] == chain[i].id
  {
    seq<PlotID>(|chain|, i requires 0 <= i < |chain| => chain[i].id)
  }

  lemma HeightAt(heights: map<int, PlotID>, chain: Thread, h: nat)
    requires HeightsMatch(heights, chain)
    ensures h in heights <==> h < |chain|
    ensures h < |chain| ==> heights[h] == chain[h].id
  {
  }

  /** The inventory is the contiguous run of the main thread from a height on. */
  lemma {:induction false} InventoryIsRun(heights: map<int, PlotID>, chain: Thread, height: nat, limit: nat)
    requires HeightsMatch(heights, chain) && height <= |chain|
    ensures var end := if height + limit < |chain| then height + limit else |chain|;
      Inventory(heights, height, limit) == ThreadIDs(chain)[height..end]
    decreases limit
  {
    hide *;
    InventoryMeans(heights, height, limit);
    HeightAt(heights, chain, height);
    var ids := ThreadIDs(chain);
    if limit > 0 && height < |chain| {
      InventoryIsRun(heights, chain, height + 1, limit - 1);
      var end := if height + limit < |chain| then height + limit else |chain|;
      assert ids[height..end] == [ids[height]] + ids[height + 1..end];
    }
  }

  // ---------- two nodes ----------

  /** An ID names one plot, on whichever thread it is seen. */
  ghost predicate NoCollision(a: Thread, b: Thread) {
    forall h, k :: 0 <= h < |a| && 0 <= k < |b| && a[h].id == b[k].id ==> a[h] == b[k]
  }

  /** Two threads from the same genesis share exactly the plots below their fork. */
  lemma {:induction false} SharedBelowFork(a: Thread, b: Thread, h: nat)
    requires IsThread(a) && IsThread(b) && NoCollision(a, b) && h < |a|
    ensures OnThread(b, a[h].id) <==> h < Common(a, b)
  {
    CommonMeans(a, b);
    var c := Common(a, b);
    if h < c {
      SamePrefix(a, b, c, h);
    } else if k :| 0 <= k < |b| && b[k].id == a[h].id {
      assert LinkOk(a, h) && LinkOk(b, k);
      SharedPrefix(a, b, h);
      SamePrefix(a, b, h + 1, c);
    }
  }

  /** A shared plot is at the same height on both threads, with the same plots below it. */
  lemma {:induction false} SharedPrefix(a: Thread, b: Thread, h: nat)
    requires IsThread(a) && IsThread(b) && NoCollision(a, b) && h < |a| && h < |b| && a[h].id == b[h].id
    ensures a[..h + 1] == b[..h + 1]
  {
    assert a[..h + 1] == a[..h] + [a[h]] && b[..h + 1] == b[..h] + [b[h]];
    assert LinkOk(a, h) && LinkOk(b, h);
    if h > 0 {
      SharedPrefix(a, b, h - 1);
    }
  }

  /** How deep the first common entry of a list may be when the threads part d plots below its start. */
  predicate CloseTo(depth: nat, d: nat) {
    && d <= depth && (d > 0 ==> depth < 2 * d) && (d <= 11 ==> depth == d)
  }

  /**
   * When the threads part d plots below the requester's tip, the first entry the responder knows
   * is common, less than 2d deep, and exactly d deep if d is at most 11: the tip itself if the requester
   * is merely behind.
   */
  lemma FirstMatch(ids: seq<PlotID>, a: Thread, b: Thread, index: nat)
    requires IsThread(a) && IsThread(b) && NoCollision(a, b) && 1 <= Common(a, b) <= |a|
    requires Lists(ids, a, |a| - 1, 0) && index <= |ids|
    requires forall i :: 0 <= i < index ==> !OnThread(b, ids[i])
    requires index < |ids| ==> OnThread(b, ids[index])
    ensures var start, d := |a| - 1, |a| - Common(a, b);
      && index < |ids| && DepthAt(start, index) <= start
      && ids[index] == a[start - DepthAt(start, index)].id
      && CloseTo(DepthAt(start, index), d)
  {
    var start, c := |a| - 1, Common(a, b);
    var d := |a| - c;
    forall h | 0 <= h < |a| ensures OnThread(b, a[h].id) <==> h < c {
      SharedBelowFork(a, b, h);
    }
    OffsetStarts();
    assert OnThread(b, a[0].id) && ids[|ids| - 1] == a[0].id;
    assert index < |ids|;
    if d > 0 {
      assert index > 0;
      assert !OnThread(b, ids[index - 1]);
      NotFarBelow(start, d, index);
    } else {
      assert OnThread(b, ids[0]);
    }
  }

  /** The first depth on the list that reaches d overshoots by less than d. */
  lemma NotFarBelow(start: nat, d: nat, index: nat)
    requires index > 0 && DepthAt(start, index - 1) < d <= DepthAt(start, index) && d <= start
    ensures DepthAt(start, index) < 2 * d && (d <= 11 ==> DepthAt(start, index) == d)
  {
    OffsetSteps(index - 1);
    assert Pow2(1) == 2;
  }

  /** The run of b from right above a plot that both threads share, `depth` below the tip of a. */
  ghost predicate Answers(inventory: seq<PlotID>, a: Thread, b: Thread, depth: nat) {
    var d, m := |a| - Common(a, b), |a| - 1 - depth;
    && depth >= 0 && d >= 0 && CloseTo(depth, d) && 0 <= m < Common(a, b) && m + 1 <= |b|
    && inventory == ThreadIDs(b)[m + 1..if m + 1 + MAX_PLOTS_PER_INV < |b| then m + 1 + MAX_PLOTS_PER_INV else |b|]
  }

  lemma AnswersFrom(inventory: seq<PlotID>, a: Thread, b: Thread, depth: nat)
    requires var d, m := |a| - Common(a, b), |a| - 1 - depth;
      && depth >= 0 && d >= 0 && CloseTo(depth, d) && 0 <= m < Common(a, b) && m + 1 <= |b|
      && inventory == ThreadIDs(b)[m + 1..if m + 1 + MAX_PLOTS_PER_INV < |b| then m + 1 + MAX_PLOTS_PER_INV else |b|]
    ensures Answers(inventory, a, b, depth)
  {
  }

  lemma MainThreadFacts(rules: Rules, plots: Plots, db: Database)
    requires LedgerOk(rules, plots, db)
    ensures var a := MainThread(rules, plots, db);
      a != [] && a[0].id == rules.genesisID && Distinct(a) && Reflects(rules, db, a) && Holds(plots, a)
  {
    hide Reflects, ValidThread;
    var a, tipID := MainThread(rules, plots, db), db.tip.value.id;
    PathLength(plots, rules.genesisID, tipID);
    PathHeld(plots, rules.genesisID, tipID);
    forall h, k | 0 <= h < k < |a| ensures a[h].id != a[k].id {
      PathOnce(plots, rules.genesisID, tipID, k);
      assert a[..k][h] == a[h];
    }
  }

  /** Threads from the same genesis have it in common. */
  lemma GenesisIsShared(a: Thread, b: Thread)
    requires a != [] && b != [] && a[0].id == b[0].id && NoCollision(a, b)
    ensures Common(a, b) >= 1
  {
  }

  /**
   * One exchange between two nodes that started from the same genesis: the answer is a contiguous run of
   * the responder's thread, from right above a common plot. If the threads part d plots below the
   * requester's tip, that plot is less than 2d below it, and exactly d when d is at most 11.
   */
  method Exchange(requester: LedgerDisk, responder: LedgerDisk) returns (inventory: seq<PlotID>)
    requires LedgerOk(requester.rules, requester.plotStore.plots, requester.db)
    requires LedgerOk(responder.rules, responder.plotStore.plots, responder.db)
    requires requester.rules.genesisID == responder.rules.genesisID
    requires NoCollision(MainThread(requester.rules, requester.plotStore.plots, requester.db),
                         MainThread(responder.rules, responder.plotStore.plots, responder.db))
    ensures exists depth ::
      Answers(inventory, MainThread(requester.rules, requester.plotStore.plots, requester.db),
              MainThread(responder.rules, responder.plotStore.plots, responder.db), depth)
  {
    hide *;
    PlotsPerInv();
    ghost var a := MainThread(requester.rules, requester.plotStore.plots, requester.db);
    ghost var b := MainThread(responder.rules, responder.plotStore.plots, responder.db);
    MainThreadFacts(requester.rules, requester.plotStore.plots, requester.db);
    MainThreadFacts(responder.rules, responder.plotStore.plots, responder.db);
    ReflectsMeans(requester.rules, requester.db, a);
    ReflectsMeans(responder.rules, responder.db, b);
    GenesisIsShared(a, b);
    LocatorLists(requester.db.heights, a, |a| - 1);
    CommonMeans(a, b);
    var message := SendFindCommonAncestor(requester, requester.plotStore, requester.rules.genesisID, None);
    ghost var ids := message.value;
    var index, reply := AnswerFindCommonAncestor(responder, responder.plotStore, message.value);
    forall i | 0 <= i < |ids|
      ensures OnThread(b, ids[i]) <==> ids[i] in responder.plotStore.plots && BranchOf(responder.db, ids[i]) == MAIN
    {
      MainIsHeld(responder.rules, responder.db, responder.plotStore.plots, b, ids[i]);
    }
    FirstMatch(ids, a, b, index);
    ghost var depth := DepthAt(|a| - 1, index);
    ghost var m: nat := |a| - 1 - depth;
    CloseToMeans(depth, |a| - Common(a, b));
    SharedBelowFork(a, b, m);
    SamePrefix(a, b, Common(a, b), m);
    HeldHeight(responder.rules, responder.db, responder.plotStore.plots, b, m);
    InventoryIsRun(responder.db.heights, b, m + 1, MAX_PLOTS_PER_INV);
    inventory := reply;
    AnswersFrom(inventory, a, b, depth);
  }

  lemma CloseToMeans(depth: nat, d: nat)
    requires CloseTo(depth, d)
    ensures d <= depth
  {
  }

  lemma PlotsPerInv()
    ensures MAX_PLOTS_PER_INV == 500
  {
  }

  lemma ReflectsMeans(rules: Rules, db: Database, chain: Thread)
    requires Reflects(rules, db, chain)
    ensures IsThread(chain) && HeightsMatch(db.heights, chain) && db.tip == TipOf(chain)
    ensures chain != [] ==> db.tip == Some(Tip(chain[|chain| - 1].id, |chain| - 1))
  {
  }

  lemma MainIsHeld(rules: Rules, db: Database, plots: Plots, chain: Thread, id: PlotID)
    requires Reflects(rules, db, chain) && Holds(plots, chain)
    ensures OnThread(chain, id) <==> id in plots && BranchOf(db, id) == MAIN
  {
  }

  lemma HeldHeight(rules: Rules, db: Database, plots: Plots, chain: Thread, h: nat)
    requires Reflects(rules, db, chain) && Holds(plots, chain) && h < |chain|
    ensures chain[h].id in plots && plots[chain[h].id].plot.header.height == h
  {
    assert LinkOk(chain, h);
  }
}
