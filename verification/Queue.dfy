/** The in-memory FIFO of unconfirmed representations: a list and a map into it, changed together. */
module RepresentationQueueMemory {
  import opened Plots
  import opened Balances
  import opened LedgerSpec
  import opened LedgerDisk
  import opened QueueSpec

  datatype QueueError = InsufficientSender | DescendantSender

  /** A cell of the list; the map points at cells. */
  class Element {
    const tx: Representation

    constructor (tx: Representation)
      ensures this.tx == tx
    {
      this.tx := tx;
    }
  }

  function Values(cells: seq<Element>): (rs: seq<Representation>)
    ensures |rs| == |cells|
    ensures forall i :: 0 <= i < |cells| ==> rs[i] == cells[i].tx
  {
    seq(|cells|, i requires 0 <= i < |cells| => cells[i].tx)
  }

  /** Unlinks the first occurrence of a cell. */
  function Unlink(cells: seq<Element>, e: Element): seq<Element> {
    if cells == [] then []
    else if cells[0] == e then cells[1..]
    else [cells[0]] + Unlink(cells[1..], e)
  }

  lemma {:induction false} UnlinkAt(cells: seq<Element>, i: nat)
    requires i < |cells| && forall j :: 0 <= j < i ==> cells[j] != cells[i]
    ensures Unlink(cells, cells[i]) == cells[..i] + cells[i + 1..]
  {
    if i > 0 {
      assert cells[0] != cells[i];
      assert cells[1..][i - 1] == cells[i];
      assert forall j :: 0 <= j < i - 1 ==> cells[1..][j] == cells[j + 1];
      UnlinkAt(cells[1..], i - 1);
      assert cells[1..][..i - 1] == cells[1..i];
      assert cells[..i] == [cells[0]] + cells[1..i];
    }
  }

  /** The map and the list agree: every cell is listed once and found under its own ID. */
  ghost predicate Linked(txMap: map<RepresentationID, Element>, cells: seq<Element>) {
    && (forall i :: 0 <= i < |cells| ==> cells[i].tx.Id() in txMap && txMap[cells[i].tx.Id()] == cells[i])
    && (forall i, j :: 0 <= i < j < |cells| ==> cells[i].tx.Id() != cells[j].tx.Id())
    && (forall id :: id in txMap ==> txMap[id] in cells && txMap[id].tx.Id() == id)
  }

  lemma CellIndex(txMap: map<RepresentationID, Element>, cells: seq<Element>, id: RepresentationID) returns (i: nat)
    requires Linked(txMap, cells) && id in txMap
    ensures i < |cells| && cells[i] == txMap[id] && cells[i].tx.Id() == id
    ensures forall j :: 0 <= j < i ==> cells[j] != cells[i]
    ensures DistinctIds(Values(cells))
  {
    i :| 0 <= i < |cells| && cells[i] == txMap[id];
  }

  lemma ValuesCut(cells: seq<Element>, i: nat)
    requires i < |cells|
    ensures Values(cells[..i] + cells[i + 1..]) == Values(cells)[..i] + Values(cells)[i + 1..]
  {
  }

  lemma UnlinkKeepsLinked(txMap: map<RepresentationID, Element>, cells: seq<Element>, id: RepresentationID)
    requires Linked(txMap, cells) && id in txMap
    ensures Linked(txMap - {id}, Unlink(cells, txMap[id]))
    ensures Values(Unlink(cells, txMap[id])) == Without(Values(cells), {id})
  {
    hide *;
    var i := CellIndex(txMap, cells, id);
    UnlinkAt(cells, i);
    WithoutAt(Values(cells), i);
    ValuesCut(cells, i);
    CutKeepsLinked(txMap, cells, i);
  }

  /** Every cell that stays is found under its own ID. */
  lemma CutCellsFound(txMap: map<RepresentationID, Element>, cells: seq<Element>, i: nat)
    requires Linked(txMap, cells) && i < |cells|
    ensures var cells', txMap' := cells[..i] + cells[i + 1..], txMap - {cells[i].tx.Id()};
      forall j :: 0 <= j < |cells'| ==> cells'[j].tx.Id() in txMap' && txMap'[cells'[j].tx.Id()] == cells'[j]
  {
    var cells', txMap' := cells[..i] + cells[i + 1..], txMap - {cells[i].tx.Id()};
    forall j | 0 <= j < |cells'|
      ensures cells'[j].tx.Id() in txMap' && txMap'[cells'[j].tx.Id()] == cells'[j]
    {
      var j' := if j < i then j else j + 1;
      assert cells'[j] == cells[j'];
    }
  }

  lemma CutCellsDiffer(cells: seq<Element>, i: nat)
    requires i < |cells| && forall j, k :: 0 <= j < k < |cells| ==> cells[j].tx.Id() != cells[k].tx.Id()
    ensures var cells' := cells[..i] + cells[i + 1..];
      forall j, k :: 0 <= j < k < |cells'| ==> cells'[j].tx.Id() != cells'[k].tx.Id()
  {
    var cells' := cells[..i] + cells[i + 1..];
    forall j, k | 0 <= j < k < |cells'| ensures cells'[j].tx.Id() != cells'[k].tx.Id() {
      var j', k' := if j < i then j else j + 1, if k < i then k else k + 1;
      assert cells'[j] == cells[j'] && cells'[k] == cells[k'];
    }
  }

  /** Everything the map still finds is still listed. */
  lemma CutCellsListed(txMap: map<RepresentationID, Element>, cells: seq<Element>, i: nat)
    requires Linked(txMap, cells) && i < |cells|
    ensures var cells', txMap' := cells[..i] + cells[i + 1..], txMap - {cells[i].tx.Id()};
      forall id :: id in txMap' ==> txMap'[id] in cells' && txMap'[id].tx.Id() == id
  {
    var cells', txMap' := cells[..i] + cells[i + 1..], txMap - {cells[i].tx.Id()};
    forall id | id in txMap' ensures txMap'[id] in cells' {
      var j :| 0 <= j < |cells| && cells[j] == txMap[id];
      assert cells'[if j < i then j else j - 1] == txMap[id];
    }
  }

  lemma CutKeepsLinked(txMap: map<RepresentationID, Element>, cells: seq<Element>, i: nat)
    requires Linked(txMap, cells) && i < |cells|
    ensures Linked(txMap - {cells[i].tx.Id()}, cells[..i] + cells[i + 1..])
  {
    CutCellsFound(txMap, cells, i);
    CutCellsDiffer(cells, i);
    CutCellsListed(txMap, cells, i);
  }

  lemma PushFrontValues(cells: seq<Element>, e: Element)
    ensures Values([e] + cells) == [e.tx] + Values(cells)
  {
  }

  lemma PushFrontKeepsLinked(txMap: map<RepresentationID, Element>, cells: seq<Element>, e: Element)
    requires Linked(txMap, cells) && e.tx.Id() !in txMap
    ensures Linked(txMap[e.tx.Id() := e], [e] + cells)
    ensures Values([e] + cells) == [e.tx] + Values(cells)
  {
    PushFrontValues(cells, e);
    hide Values;
    var cells', txMap' := [e] + cells, txMap[e.tx.Id() := e];
    assert forall i :: 0 < i < |cells'| ==> cells'[i] == cells[i - 1];
    forall id | id in txMap' ensures txMap'[id] in cells' {
      if id == e.tx.Id() {
        assert cells'[0] == e;
      } else {
        var j :| 0 <= j < |cells| && cells[j] == txMap[id];
        assert cells'[j + 1] == txMap[id];
      }
    }
  }

  lemma PushBackKeepsLinked(txMap: map<RepresentationID, Element>, cells: seq<Element>, e: Element)
    requires Linked(txMap, cells) && e.tx.Id() !in txMap
    ensures Linked(txMap[e.tx.Id() := e], cells + [e])
    ensures Values(cells + [e]) == Values(cells) + [e.tx]
  {
    var cells', txMap' := cells + [e], txMap[e.tx.Id() := e];
    assert forall i :: 0 <= i < |cells| ==> cells'[i] == cells[i];
    forall id | id in txMap' ensures txMap'[id] in cells' {
      if id == e.tx.Id() {
        assert cells'[|cells|] == e;
      } else {
        var j :| 0 <= j < |cells| && cells[j] == txMap[id];
        assert cells'[j] == txMap[id];
      }
    }
  }

  class RepresentationQueueMemory {
    const imbalanceCache: ImbalanceCache
    const rules: Rules
    var txMap: map<RepresentationID, Element>
    var txQueue: seq<Element>

    constructor (ledger: LedgerDisk, rules: Rules)
      ensures Valid() && Contents() == [] && this.rules == rules
      ensures fresh(imbalanceCache) && imbalanceCache.ledger == ledger && imbalanceCache.cache == map[]
    {
      imbalanceCache := new ImbalanceCache(ledger);
      this.rules := rules;
      txMap := map[];
      txQueue := [];
    }

    ghost predicate Valid()
      reads this
    {
      Linked(txMap, txQueue)
    }

    function Contents(): seq<Representation>
      reads this
    {
      Values(txQueue)
    }

    function Exists(id: RepresentationID): bool
      reads this
    {
      id in txMap
    }

    /** In the queue under this ID with exactly this signature. */
    function ExistsSigned(id: RepresentationID, signature: seq<byte>): (b: bool)
      requires Valid()
      reads this
      ensures b <==> exists r :: r in Contents() && r.Id() == id && r.signature == signature
    {
      assert id in txMap ==> txMap[id].tx in Contents() by {
        if id in txMap {
          var i :| 0 <= i < |txQueue| && txQueue[i] == txMap[id];
          assert Contents()[i] == txMap[id].tx;
        }
      }
      id in txMap && txMap[id].tx.signature == signature
    }

    function Len(): nat
      reads this
    {
      |txQueue|
    }

    /** Unlinks the cell of an ID from the list and the map. */
    method Remove(id: RepresentationID)
      requires Valid() && id in txMap
      modifies this
      ensures Valid() && Contents() == Without(old(Contents()), {id}) && txMap == old(txMap) - {id}
    {
      UnlinkKeepsLinked(txMap, txQueue, id);
      txQueue := Unlink(txQueue, txMap[id]);
      txMap := txMap - {id};
    }

    /** Adds to the back; a guarded representation is refused after its effect has reached the cache. */
    method Add(tx: Representation) returns (r: Result<bool, QueueError>)
      requires Valid()
      modifies this, imbalanceCache
      ensures Valid()
      ensures var funded := tx.byKey.Some? ==> old(imbalanceCache.View(tx.byKey.value)) >= 1;
        r == if old(Exists(tx.Id())) then Ok(false)
             else if !funded then Err(InsufficientSender)
             else if rules.guard(tx) then Err(DescendantSender)
             else Ok(true)
      ensures Contents() == if r == Ok(true) then old(Contents()) + [tx] else old(Contents())
      ensures r == Ok(true) || r == Err(DescendantSender) ==>
                forall k :: imbalanceCache.View(k) == old(imbalanceCache.View(k)) + Delta(tx, k)
      ensures r == Ok(false) || r == Err(InsufficientSender) ==> imbalanceCache.cache == old(imbalanceCache.cache)
    {
      if tx.Id() in txMap {
        return Ok(false);
      }
      var ok := imbalanceCache.Apply(tx);
      if !ok {
        return Err(InsufficientSender);
      }
      if rules.guard(tx) {
        return Err(DescendantSender);
      }
      var e := new Element(tx);
      PushBackKeepsLinked(txMap, txQueue, e);
      txQueue := txQueue + [e];
      txMap := txMap[tx.Id() := e];
      return Ok(true);
    }

    method RemoveIfPresent(id: RepresentationID)
      requires Valid()
      modifies this
      ensures Valid() && Contents() == Without(old(Contents()), {id}) && id !in txMap
    {
      if id in txMap {
        Remove(id);
      } else {
        WithoutNone(Contents(), {id});
      }
    }

    method PushFront(tx: Representation)
      requires Valid() && tx.Id() !in txMap
      modifies this
      ensures Valid() && Contents() == [tx] + old(Contents())
    {
      var e := new Element(tx);
      PushFrontKeepsLinked(txMap, txQueue, e);
      txQueue := [e] + txQueue;
      txMap := txMap[tx.Id() := e];
    }

    /** A disconnected plot's representations go to the front, in their order, replacing queued ones. */
    method AddBatch(txs: seq<Representation>)
      requires Valid() && DistinctIds(txs)
      modifies this
      ensures Valid() && Contents() == txs + Without(old(Contents()), IdSet(txs))
    {
      ghost var before := Contents();
      var i := |txs|;
      WithoutNone(before, IdSet(txs[i..]));
      while i > 0
        invariant 0 <= i <= |txs| && Valid()
        invariant Contents() == txs[i..] + Without(before, IdSet(txs[i..]))
      {
        i := i - 1;
        AddBatchStep(txs, i, before);
        RemoveIfPresent(txs[i].Id());
        PushFront(txs[i]);
      }
      assert txs[0..] == txs;
    }

    /** A connected plot's representations go; with no more plots to come, the queue is reprocessed. */
    method RemoveBatch(ids: seq<RepresentationID>, height: int, more: bool)
      requires Valid()
      modifies this, imbalanceCache
      ensures Valid()
      ensures var left := Without(old(Contents()), IdsIn(ids));
        var pass := Reprocessed(rules, imbalanceCache.ledger.db.imbalances, left, height);
        && (more ==> Contents() == left && imbalanceCache.cache == old(imbalanceCache.cache))
        && (!more ==> Contents() == pass.kept
                      && Shows(imbalanceCache, imbalanceCache.ledger.db.imbalances, pass.applied))
    {
      ghost var before := Contents();
      WithoutNone(before, IdsIn(ids[..0]));
      for i := 0 to |ids|
        invariant Valid() && imbalanceCache.cache == old(imbalanceCache.cache)
        invariant Contents() == Without(before, IdsIn(ids[..i]))
      {
        WithoutTwice(before, IdsIn(ids[..i]), {ids[i]});
        IdsInStep(ids, i);
        RemoveIfPresent(ids[i]);
      }
      assert ids[..|ids|] == ids;
      if !more {
        ReprocessQueue(height);
      }
    }

    /** Keeps or drops the entry after `pass.kept`. */
    method ReprocessOne(tx: Representation, height: int, ghost m: Imbalances, ghost pass: Pass,
                        ghost rest: seq<Representation>)
      requires Valid() && Contents() == pass.kept + ([tx] + rest)
      requires m == imbalanceCache.ledger.db.imbalances && Shows(imbalanceCache, m, pass.applied)
      modifies this, imbalanceCache
      ensures Valid() && Contents() == PassStep(rules, m, pass, tx, height).kept + rest
      ensures Shows(imbalanceCache, m, PassStep(rules, m, pass, tx, height).applied)
    {
      Locate(pass.kept, tx, rest);
      if !IncludableAt(tx, height + 1) {
        Remove(tx.Id());
        return;
      }
      NetGrows(pass.applied, tx);
      var ok := imbalanceCache.Apply(tx);
      if !ok || rules.guard(tx) {
        Remove(tx.Id());
      } else {
        assert pass.kept + ([tx] + rest) == (pass.kept + [tx]) + rest;
      }
    }

    /** Rebuilds the imbalance cache and removes what is now in violation. */
    method ReprocessQueue(height: int)
      requires Valid()
      modifies this, imbalanceCache
      ensures Valid()
      ensures var m := imbalanceCache.ledger.db.imbalances;
        var pass := Reprocessed(rules, m, old(Contents()), height);
        Contents() == pass.kept && Shows(imbalanceCache, m, pass.applied)
    {
      hide Reprocessed, PassStep, Shows, Linked, Values;
      ghost var m := imbalanceCache.ledger.db.imbalances;
      imbalanceCache.Reset();
      ResetShows(imbalanceCache);
      var snapshot := Contents();
      ghost var pass := Pass([], []);
      NothingReprocessed(rules, m, snapshot[..0], height);
      assert snapshot[0..] == snapshot;
      for i := 0 to |snapshot|
        invariant Valid() && pass == Reprocessed(rules, m, snapshot[..i], height)
        invariant Contents() == pass.kept + snapshot[i..]
        invariant Shows(imbalanceCache, m, pass.applied)
      {
        ReprocessedStep(rules, m, snapshot, i, height);
        HeadOf(snapshot, i);
        ReprocessOne(snapshot[i], height, m, pass, snapshot[i + 1..]);
        pass := PassStep(rules, m, pass, snapshot[i], height);
      }
      assert snapshot[..|snapshot|] == snapshot;
    }

    lemma ResetShows(imbalanceCache: ImbalanceCache)
      requires imbalanceCache.cache == map[]
      ensures Shows(imbalanceCache, imbalanceCache.ledger.db.imbalances, [])
    {
    }

    /** The entry after `kept` is in the map, and removing it leaves what is around it. */
    lemma Locate(kept: seq<Representation>, tx: Representation, rest: seq<Representation>)
      requires Valid() && Contents() == kept + ([tx] + rest)
      ensures tx.Id() in txMap
      ensures Without(Contents(), {tx.Id()}) == kept + rest
    {
      var i := |kept|;
      assert Contents()[i] == tx && txQueue[i].tx == tx;
      WithoutAt(Contents(), i);
      assert Contents()[..i] == kept && Contents()[i + 1..] == rest;
    }

    /** The first entries, for the scriber; all of them when limit is 0. */
    method Get(limit: nat) returns (txs: seq<Representation>)
      requires Valid()
      ensures txs == if limit == 0 || |Contents()| < limit then Contents() else Contents()[..limit]
    {
      var n := if limit == 0 || Len() < limit then Len() else limit;
      txs := [];
      for i := 0 to n
        invariant txs == Contents()[..i]
      {
        txs := txs + [txQueue[i].tx];
      }
    }
  }

  lemma AddBatchStep(txs: seq<Representation>, i: nat, queue: seq<Representation>)
    requires i < |txs| && DistinctIds(txs)
    ensures var id := txs[i].Id();
      [txs[i]] + Without(txs[i + 1..] + Without(queue, IdSet(txs[i + 1..])), {id})
      == txs[i..] + Without(queue, IdSet(txs[i..]))
  {
    hide Without, IdSet;
    var rest, ids, id := txs[i + 1..], IdSet(txs[i + 1..]), txs[i].Id();
    WithoutConcat(rest, Without(queue, ids), {id});
    WithoutNone(rest, {id});
    WithoutTwice(queue, ids, {id});
    IdsFrom(txs, i);
    assert txs[i..] == [txs[i]] + rest;
  }
}
