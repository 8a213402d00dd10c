/** What the queue of unconfirmed representations may hold, and what one pass over it keeps. */
module QueueSpec {
  import opened Plots
  import opened Balances
  import opened LedgerSpec

  function KeepOne(r: Representation, ids: set<RepresentationID>): seq<Representation> {
    if r.Id() in ids then [] else [r]
  }

  /** The list without the representations of the given IDs, in the same order. */
  function Without(rs: seq<Representation>, ids: set<RepresentationID>): seq<Representation> {
    if rs == [] then [] else KeepOne(rs[0], ids) + Without(rs[1..], ids)
  }

  lemma {:induction false} WithoutConcat(a: seq<Representation>, b: seq<Representation>, ids: set<RepresentationID>)
    ensures Without(a + b, ids) == Without(a, ids) + Without(b, ids)
  {
    hide KeepOne;
    if a == [] {
      assert a + b == b;
    } else {
      assert (a + b)[0] == a[0];
      var head, x, y := KeepOne(a[0], ids), Without(a[1..], ids), Without(b, ids);
      WithoutConcat(a[1..], b, ids);
      assert (a + b)[1..] == a[1..] + b;
      assert head + (x + y) == (head + x) + y;
    }
  }

  lemma {:induction false} WithoutTwice(rs: seq<Representation>, s: set<RepresentationID>, t: set<RepresentationID>)
    ensures Without(Without(rs, s), t) == Without(rs, s + t)
  {
    if rs != [] {
      WithoutTwice(rs[1..], s, t);
      WithoutConcat(KeepOne(rs[0], s), Without(rs[1..], s), t);
      WithoutOne(rs[0], t);
    }
  }

  lemma WithoutOne(r: Representation, ids: set<RepresentationID>)
    ensures Without([r], ids) == KeepOne(r, ids)
  {
    assert [r][1..] == [];
  }

  lemma {:induction false} WithoutNone(rs: seq<Representation>, ids: set<RepresentationID>)
    requires forall i :: 0 <= i < |rs| ==> rs[i].Id() !in ids
    ensures Without(rs, ids) == rs
  {
    if rs != [] {
      assert rs[0].Id() !in ids;
      assert forall i :: 0 <= i < |rs| - 1 ==> rs[1..][i] == rs[i + 1];
      WithoutNone(rs[1..], ids);
    }
  }

  lemma {:induction false} WithoutAt(rs: seq<Representation>, i: nat)
    requires i < |rs| && DistinctIds(rs)
    ensures Without(rs, {rs[i].Id()}) == rs[..i] + rs[i + 1..]
  {
    var rest, ids := rs[1..], {rs[i].Id()};
    assert forall j :: 0 <= j < |rest| ==> rest[j] == rs[j + 1];
    WithoutFirst(rs, ids);
    hide Without;
    if i == 0 {
      WithoutNone(rest, ids);
    } else {
      assert rest[i - 1] == rs[i];
      WithoutAt(rest, i - 1);
      assert rest[..i - 1] + rest[i..] == rs[1..i] + rs[i + 1..];
      assert rs[..i] == [rs[0]] + rs[1..i];
    }
  }

  lemma WithoutFirst(rs: seq<Representation>, ids: set<RepresentationID>)
    requires rs != []
    ensures Without(rs, ids) == (if rs[0].Id() in ids then [] else [rs[0]]) + Without(rs[1..], ids)
  {
  }

  /** Exactly the representations of other IDs stay. */
  lemma {:induction false} WithoutContents(rs: seq<Representation>, ids: set<RepresentationID>)
    ensures forall r :: r in Without(rs, ids) <==> r in rs && r.Id() !in ids
  {
    if rs != [] {
      WithoutContents(rs[1..], ids);
      assert rs == [rs[0]] + rs[1..];
    }
  }

  lemma {:induction false} WithoutDistinct(rs: seq<Representation>, ids: set<RepresentationID>)
    requires DistinctIds(rs)
    ensures DistinctIds(Without(rs, ids))
  {
    if rs != [] {
      var rest := Without(rs[1..], ids);
      assert DistinctIds(rs[1..]) by {
        forall i, j | 0 <= i < j < |rs[1..]| ensures rs[1..][i].Id() != rs[1..][j].Id() {
          assert rs[1..][i] == rs[i + 1] && rs[1..][j] == rs[j + 1];
        }
      }
      WithoutDistinct(rs[1..], ids);
      WithoutContents(rs[1..], ids);
      forall j | 0 <= j < |rest| ensures rest[j].Id() != rs[0].Id() {
        assert rest[j] in rest;
        var i :| 0 <= i < |rs[1..]| && rs[1..][i] == rest[j];
        assert rs[i + 1] == rest[j];
      }
    }
  }

  /** What a pass has kept, and what it has applied to the imbalance cache. */
  datatype Pass = Pass(kept: seq<Representation>, applied: seq<Representation>)

  /**
   * One pass over the queue at tip height `height`: a representation out of its window or without funds
   * goes and leaves no trace; one the guard rejects goes too, but its effect on the cache stays.
   */
  ghost function Reprocessed(rules: Rules, m: Imbalances, queue: seq<Representation>, height: int): Pass {
    if queue == [] then Pass([], [])
    else
      PassStep(rules, m, Reprocessed(rules, m, queue[..|queue| - 1], height), queue[|queue| - 1], height)
  }

  ghost function PassStep(rules: Rules, m: Imbalances, p: Pass, tx: Representation, height: int): Pass {
    if !IncludableAt(tx, height + 1) || !CanSend(m, p.applied, tx) then p
    else if rules.guard(tx) then p.(applied := p.applied + [tx])
    else Pass(p.kept + [tx], p.applied + [tx])
  }

  lemma ReprocessedStep(rules: Rules, m: Imbalances, queue: seq<Representation>, i: nat, height: int)
    requires i < |queue|
    ensures Reprocessed(rules, m, queue[..i + 1], height)
            == PassStep(rules, m, Reprocessed(rules, m, queue[..i], height), queue[i], height)
  {
    assert queue[..i + 1][..i] == queue[..i];
  }

  lemma NothingReprocessed(rules: Rules, m: Imbalances, queue: seq<Representation>, height: int)
    requires queue == []
    ensures Reprocessed(rules, m, queue, height) == Pass([], [])
  {
  }

  lemma HeadOf(queue: seq<Representation>, i: nat)
    requires i < |queue|
    ensures queue[i..] == [queue[i]] + queue[i + 1..]
  {
  }

  function IdsIn(ids: seq<RepresentationID>): set<RepresentationID> {
    set id | id in ids
  }

  lemma IdsInStep(ids: seq<RepresentationID>, i: nat)
    requires i < |ids|
    ensures IdsIn(ids[..i + 1]) == IdsIn(ids[..i]) + {ids[i]}
  {
    assert ids[..i + 1] == ids[..i] + [ids[i]];
  }

  /** Queue entries are ordinary representations to someone else, each once. */
  ghost predicate QueueShape(queue: seq<Representation>) {
    && DistinctIds(queue)
    && forall r :: r in queue ==> !r.IsPlotroot() && r.byKey != Some(r.forKey)
  }

  /** Nothing in the queue is on the thread. */
  ghost predicate Unconfirmed(chain: Thread, queue: seq<Representation>) {
    forall r :: r in queue ==> !Confirmed(chain, r.Id())
  }

  /** Applying the queue in order to the ledger works, in a plot at the next height. */
  ghost predicate Applicable(m: Imbalances, queue: seq<Representation>, height: int) {
    Funded(m, queue) && forall r :: r in queue ==> IncludableAt(r, height + 1)
  }

  /** A pass applies only what is funded in its turn, and keeps a part of what it applies. */
  lemma {:induction false} PassIsFunded(rules: Rules, m: Imbalances, queue: seq<Representation>, height: int)
    ensures var p := Reprocessed(rules, m, queue, height);
      && Applicable(m, p.applied, height)
      && (forall r :: r in p.kept <==> r in p.applied && !rules.guard(r))
      && (forall r :: r in p.applied ==> r in queue)
  {
    if queue != [] {
      var front, tx := queue[..|queue| - 1], queue[|queue| - 1];
      PassIsFunded(rules, m, front, height);
      FundedStep(m, Reprocessed(rules, m, front, height).applied, tx);
      hide Funded, CanSend, IncludableAt;
    }
  }

  /** Where the guard rejects nothing, what is kept is what was applied: the cache and the queue agree. */
  lemma {:induction false} PassKeepsWhatItApplies(rules: Rules, m: Imbalances, queue: seq<Representation>, height: int)
    requires forall r :: r in queue ==> !rules.guard(r)
    ensures Reprocessed(rules, m, queue, height).kept == Reprocessed(rules, m, queue, height).applied
  {
    if queue != [] {
      PassKeepsWhatItApplies(rules, m, queue[..|queue| - 1], height);
    }
  }

  /** What the guard lets through. */
  ghost function LetThrough(rules: Rules, rs: seq<Representation>): seq<Representation> {
    if rs == [] then []
    else LetThrough(rules, rs[..|rs| - 1]) + if rules.guard(rs[|rs| - 1]) then [] else [rs[|rs| - 1]]
  }

  lemma LetThroughStep(rules: Rules, rs: seq<Representation>, r: Representation)
    ensures LetThrough(rules, rs + [r]) == LetThrough(rules, rs) + if rules.guard(r) then [] else [r]
  {
    assert (rs + [r])[..|rs|] == rs;
  }

  lemma {:induction false} LetThroughAll(rules: Rules, rs: seq<Representation>)
    requires forall r :: r in rs ==> !rules.guard(r)
    ensures LetThrough(rules, rs) == rs
  {
    if rs != [] {
      var front, last := rs[..|rs| - 1], rs[|rs| - 1];
      assert rs == front + [last] && last in rs;
      LetThroughStep(rules, front, last);
      hide LetThrough;
      LetThroughAll(rules, front);
    }
  }

  lemma {:induction false} LetThroughContents(rules: Rules, rs: seq<Representation>)
    ensures forall r :: r in LetThrough(rules, rs) <==> r in rs && !rules.guard(r)
  {
    if rs != [] {
      LetThroughContents(rules, rs[..|rs| - 1]);
    }
  }

  /** A queue that is applicable as it stands loses nothing. */
  lemma {:induction false} PassKeepsApplicable(rules: Rules, m: Imbalances, queue: seq<Representation>, height: int)
    requires Applicable(m, queue, height) && forall r :: r in queue ==> !rules.guard(r)
    ensures Reprocessed(rules, m, queue, height) == Pass(queue, queue)
  {
    if queue != [] {
      var front, tx := queue[..|queue| - 1], queue[|queue| - 1];
      assert queue == front + [tx];
      ApplicableStep(m, front, tx, height);
      PassKeepsApplicable(rules, m, front, height);
    }
  }

  lemma ApplicableStep(m: Imbalances, front: seq<Representation>, tx: Representation, height: int)
    ensures Applicable(m, front + [tx], height) <==>
              Applicable(m, front, height) && CanSend(m, front, tx) && IncludableAt(tx, height + 1)
    ensures tx in front + [tx] && forall r :: r in front ==> r in front + [tx]
  {
    FundedStep(m, front, tx);
    assert forall r :: r in front + [tx] <==> r in front || r == tx;
    assert tx in front + [tx];
    if Applicable(m, front + [tx], height) {
      assert Funded(m, front + [tx]);
      assert forall r :: r in front ==> IncludableAt(r, height + 1);
    }
  }

  /** The pass keeps a queue's shape. */
  lemma {:induction false} PassShape(rules: Rules, m: Imbalances, queue: seq<Representation>, height: int)
    requires QueueShape(queue)
    ensures QueueShape(Reprocessed(rules, m, queue, height).kept)
  {
    if queue != [] {
      var n := |queue| - 1;
      var front, tx := queue[..n], queue[n];
      QueueShapeFront(queue);
      PassShape(rules, m, front, height);
      PassIsFunded(rules, m, front, height);
      var kept := Reprocessed(rules, m, front, height).kept;
      forall r | r in kept ensures r.Id() != tx.Id() {
        assert r in front;
      }
      QueueShapeBack(kept, tx);
    }
  }

  lemma QueueShapeFront(queue: seq<Representation>)
    requires queue != [] && QueueShape(queue)
    ensures QueueShape(queue[..|queue| - 1])
    ensures forall r :: r in queue[..|queue| - 1] ==> r.Id() != queue[|queue| - 1].Id()
    ensures queue[|queue| - 1] in queue && forall r :: r in queue[..|queue| - 1] ==> r in queue
  {
    forall r | r in queue[..|queue| - 1] ensures r.Id() != queue[|queue| - 1].Id() {
      var i :| 0 <= i < |queue| - 1 && queue[i] == r;
    }
  }

  lemma QueueShapeBack(queue: seq<Representation>, tx: Representation)
    requires QueueShape(queue) && !tx.IsPlotroot() && tx.byKey != Some(tx.forKey)
    requires forall r :: r in queue ==> r.Id() != tx.Id()
    ensures QueueShape(queue + [tx])
  {
  }
}
