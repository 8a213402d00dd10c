/** What moving the main thread does to the queue: what comes back, what is confirmed, and what stays. */
module QueueMoves {
  import opened Plots
  import opened Balances
  import opened LedgerSpec
  import opened QueueSpec
  import opened QueueProofs
  import opened ThreadState

  // ---------- which entries stay ----------

  /** The entries at some of the places, in order. */
  function Picked(rs: seq<Representation>, places: set<nat>): seq<Representation> {
    if rs == [] then []
    else Picked(rs[..|rs| - 1], places) + if |rs| - 1 in places then [rs[|rs| - 1]] else []
  }

  /**
   * Taken in order, an entry stays exactly when it may be included at the height and its sender can pay
   * after the entries that stay before it.
   */
  ghost predicate SievedAt(m: Imbalances, height: int, queue: seq<Representation>, stay: seq<Representation>,
                           places: set<nat>) {
    && stay == Picked(queue, places)
    && forall i :: 0 <= i < |queue| ==>
         (i in places <==> IncludableAt(queue[i], height) && CanSend(m, Picked(queue[..i], places), queue[i]))
  }

  ghost predicate Sieved(m: Imbalances, height: int, queue: seq<Representation>, stay: seq<Representation>) {
    exists places: set<nat> :: SievedAt(m, height, queue, stay, places)
  }

  ghost predicate Stays(rules: Rules, m: Imbalances, queue: seq<Representation>, height: int, i: nat)
    requires i < |queue|
  {
    IncludableAt(queue[i], height + 1) && CanSend(m, Reprocessed(rules, m, queue[..i], height).applied, queue[i])
  }

  lemma PickedStep(rs: seq<Representation>, places: set<nat>, i: nat)
    requires i < |rs|
    ensures Picked(rs[..i + 1], places) == Picked(rs[..i], places) + if i in places then [rs[i]] else []
  {
    assert rs[..i + 1][..i] == rs[..i];
  }

  lemma {:induction false} PassPicks(rules: Rules, m: Imbalances, queue: seq<Representation>, height: int,
                                     places: set<nat>, n: nat)
    requires n <= |queue|
    requires forall i :: 0 <= i < n ==> (i in places <==> Stays(rules, m, queue, height, i))
    ensures Picked(queue[..n], places) == Reprocessed(rules, m, queue[..n], height).applied
  {
    if n > 0 {
      PassPicks(rules, m, queue, height, places, n - 1);
      PickedStep(queue, places, n - 1);
      ReprocessedStep(rules, m, queue, n - 1, height);
      assert n - 1 in places <==> Stays(rules, m, queue, height, n - 1);
    }
  }

  /** A pass applies exactly the entries that are due and paid for after those before them. */
  lemma PassSieves(rules: Rules, m: Imbalances, queue: seq<Representation>, height: int, stay: seq<Representation>)
    ensures Sieved(m, height + 1, queue, stay) <==> stay == Reprocessed(rules, m, queue, height).applied
  {
    hide IncludableAt, CanSend, Reprocessed, Picked;
    assert queue[..|queue|] == queue;
    if Sieved(m, height + 1, queue, stay) {
      var places: set<nat> :| SievedAt(m, height + 1, queue, stay, places);
      SieveIsPass(rules, m, queue, height, stay, places, |queue|);
    }
    if stay == Reprocessed(rules, m, queue, height).applied {
      var places := set i: nat | i < |queue| && Stays(rules, m, queue, height, i);
      forall i | 0 <= i < |queue|
        ensures i in places <==>
                  IncludableAt(queue[i], height + 1) && CanSend(m, Picked(queue[..i], places), queue[i])
      {
        PassPicks(rules, m, queue, height, places, i);
      }
      PassPicks(rules, m, queue, height, places, |queue|);
      assert SievedAt(m, height + 1, queue, stay, places);
    }
  }

  lemma {:induction false} SieveIsPass(rules: Rules, m: Imbalances, queue: seq<Representation>, height: int,
                                       stay: seq<Representation>, places: set<nat>, n: nat)
    requires SievedAt(m, height + 1, queue, stay, places) && n <= |queue|
    ensures Picked(queue[..n], places) == Reprocessed(rules, m, queue[..n], height).applied
  {
    hide IncludableAt, CanSend;
    if n > 0 {
      SieveIsPass(rules, m, queue, height, stay, places, n - 1);
      PickedStep(queue, places, n - 1);
      ReprocessedStep(rules, m, queue, n - 1, height);
    }
  }

  lemma {:induction false} AllPicked(m: Imbalances, height: int, queue: seq<Representation>, stay: seq<Representation>,
                                     places: set<nat>, n: nat)
    requires SievedAt(m, height, queue, stay, places) && n <= |queue|
    requires Funded(m, queue) && forall r :: r in queue ==> IncludableAt(r, height)
    ensures Picked(queue[..n], places) == queue[..n]
  {
    hide *;
    if n == 0 {
      NonePicked(queue, places);
    } else {
      AllPicked(m, height, queue, stay, places, n - 1);
      PickedStep(queue, places, n - 1);
      FundedAt(m, queue, n - 1);
      PlaceOf(m, height, queue, stay, places, n - 1);
      assert queue[n - 1] in queue;
      assert queue[..n] == queue[..n - 1] + [queue[n - 1]];
    }
  }

  lemma NonePicked(queue: seq<Representation>, places: set<nat>)
    ensures Picked(queue[..0], places) == queue[..0]
  {
  }

  lemma FundedAt(m: Imbalances, queue: seq<Representation>, i: nat)
    requires Funded(m, queue) && i < |queue|
    ensures CanSend(m, queue[..i], queue[i])
  {
  }

  lemma PlaceOf(m: Imbalances, height: int, queue: seq<Representation>, stay: seq<Representation>, places: set<nat>,
                i: nat)
    requires SievedAt(m, height, queue, stay, places) && i < |queue|
    ensures i in places <==> IncludableAt(queue[i], height) && CanSend(m, Picked(queue[..i], places), queue[i])
  {
  }

  /** What a pass keeps, whatever the guard: what it applies and the guard lets through. */
  lemma {:induction false} PassLetsThrough(rules: Rules, m: Imbalances, queue: seq<Representation>, height: int)
    ensures Reprocessed(rules, m, queue, height).kept
            == LetThrough(rules, Reprocessed(rules, m, queue, height).applied)
  {
    if queue != [] {
      var front, tx := queue[..|queue| - 1], queue[|queue| - 1];
      PassLetsThrough(rules, m, front, height);
      LetThroughStep(rules, Reprocessed(rules, m, front, height).applied, tx);
    }
  }

  // ---------- what comes back and what goes ----------

  /** A plot's representations but the plotroot. */
  function Others(plot: Plot): seq<Representation> {
    if plot.reps == [] then [] else plot.reps[1..]
  }

  /** Those of a run of plots, the lowest plot's first. */
  function Loose(run: Thread): seq<Representation> {
    if run == [] then [] else Others(run[0].plot) + Loose(run[1..])
  }

  /** What the thread does not confirm, in order. */
  ghost function Pending(chain: Thread, rs: seq<Representation>): seq<Representation> {
    if rs == [] then [] else (if Confirmed(chain, rs[0].Id()) then [] else [rs[0]]) + Pending(chain, rs[1..])
  }

  /** The plots of the thread a that are not on the thread b. */
  ghost function Abandoned(a: Thread, b: Thread): Thread {
    CommonMeans(a, b);
    a[Common(a, b)..]
  }

  /**
   * The queue after the main thread has gone from a to b: of the representations that the abandoned plots
   * confirmed, the lowest plot's first, and then the old queue, those that b does not confirm and that the
   * next plot can include and pay for in this order.
   */
  ghost predicate Requeued(m: Imbalances, a: Thread, b: Thread, before: seq<Representation>,
                           after: seq<Representation>) {
    Sieved(m, |b|, Pending(b, Loose(Abandoned(a, b)) + before), after)
  }

  /**
   * The queue after a move from a towards b has failed, b being valid up to its first n plots: unless they
   * are all of a, what these confirmed and a does not comes first, then what they did not confirm of the
   * old queue, as far as the next plot can include and pay for it.
   */
  ghost predicate RolledBackAt(rules: Rules, m: Imbalances, a: Thread, b: Thread, before: seq<Representation>,
                               after: seq<Representation>, n: nat) {
    CommonMeans(a, b);
    var c := Common(a, b);
    && c <= n < |b| && ValidThread(rules, b[..n]) && !ValidThread(rules, b[..n + 1])
    && if n == |a| == c then after == before
       else Sieved(m, |a|, Pending(a, Loose(b[c..n])) + Pending(b[..n], before), after)
  }

  ghost predicate RolledBack(rules: Rules, m: Imbalances, a: Thread, b: Thread, before: seq<Representation>,
                             after: seq<Representation>) {
    exists n: nat :: RolledBackAt(rules, m, a, b, before, after, n)
  }

  /** Exactly the unconfirmed ones. */
  lemma {:induction false} PendingContents(chain: Thread, rs: seq<Representation>)
    ensures forall r :: r in Pending(chain, rs) <==> r in rs && !Confirmed(chain, r.Id())
  {
    if rs != [] {
      PendingContents(chain, rs[1..]);
      assert rs == [rs[0]] + rs[1..];
    }
  }

  lemma {:induction false} PendingAll(chain: Thread, rs: seq<Representation>)
    requires forall r :: r in rs ==> !Confirmed(chain, r.Id())
    ensures Pending(chain, rs) == rs
  {
    if rs != [] {
      assert rs[0] in rs;
      PendingAll(chain, rs[1..]);
    }
  }

  lemma {:induction false} PendingNone(chain: Thread, rs: seq<Representation>)
    requires forall r :: r in rs ==> Confirmed(chain, r.Id())
    ensures Pending(chain, rs) == []
  {
    if rs != [] {
      assert rs[0] in rs;
      PendingNone(chain, rs[1..]);
    }
  }

  lemma NothingBefore(rs: seq<Representation>)
    ensures [] + rs == rs
  {
  }

  lemma FirstOf(a: seq<Representation>, b: seq<Representation>)
    requires a != []
    ensures a == [a[0]] + a[1..] && a + b == [a[0]] + (a[1..] + b)
  {
  }

  lemma PendingFirst(chain: Thread, r: Representation, rs: seq<Representation>)
    ensures Pending(chain, [r] + rs) == (if Confirmed(chain, r.Id()) then [] else [r]) + Pending(chain, rs)
  {
    assert ([r] + rs)[1..] == rs;
  }

  lemma {:induction false} PendingConcat(chain: Thread, a: seq<Representation>, b: seq<Representation>)
    ensures Pending(chain, a + b) == Pending(chain, a) + Pending(chain, b)
  {
    if a == [] {
      NothingBefore(b);
      NothingBefore(Pending(chain, b));
    } else {
      var r, rest := a[0], a[1..];
      PendingConcat(chain, rest, b);
      PendingFirst(chain, r, rest);
      PendingFirst(chain, r, rest + b);
      hide Confirmed, Pending;
      FirstOf(a, b);
    }
  }

  /** What two threads do not confirm, either way round. */
  lemma {:induction false} PendingCommutes(a: Thread, b: Thread, rs: seq<Representation>)
    ensures Pending(a, Pending(b, rs)) == Pending(b, Pending(a, rs))
  {
    if rs != [] {
      hide Confirmed;
      var r, rest := rs[0], rs[1..];
      PendingCommutes(a, b, rest);
      NothingBefore(Pending(a, rest));
      NothingBefore(Pending(b, rest));
      PendingFirst(a, r, Pending(b, rest));
      PendingFirst(b, r, Pending(a, rest));
    }
  }

  lemma ConfirmedLater(chain: Thread, n: nat, k: nat, id: RepresentationID)
    requires n <= k <= |chain| && Confirmed(chain[..n], id)
    ensures Confirmed(chain[..k], id)
  {
    var p :| At(chain[..n], p) && RepAt(chain[..n], p).Id() == id;
    assert At(chain[..k], p) && RepAt(chain[..k], p).Id() == id;
  }

  /** A longer thread confirms all that a shorter one does. */
  lemma {:induction false} PendingLater(chain: Thread, n: nat, k: nat, rs: seq<Representation>)
    requires n <= k <= |chain|
    ensures Pending(chain[..k], Pending(chain[..n], rs)) == Pending(chain[..k], rs)
  {
    if rs != [] {
      PendingLater(chain, n, k, rs[1..]);
      if Confirmed(chain[..n], rs[0].Id()) {
        ConfirmedLater(chain, n, k, rs[0].Id());
      }
      hide Confirmed;
      NothingBefore(Pending(chain[..n], rs[1..]));
      NothingBefore(Pending(chain[..k], rs[1..]));
      PendingFirst(chain[..k], rs[0], Pending(chain[..n], rs[1..]));
    }
  }

  /** A thread confirms all that its plots hold. */
  lemma {:induction false} LooseConfirmed(chain: Thread, c: nat)
    requires c <= |chain|
    ensures forall r :: r in Loose(chain[c..]) ==> Confirmed(chain, r.Id())
    decreases |chain| - c
  {
    if c < |chain| {
      LooseConfirmed(chain, c + 1);
      LooseStep(chain, c);
      forall r | r in Others(chain[c].plot) ensures Confirmed(chain, r.Id()) {
        var i :| 0 <= i < |Others(chain[c].plot)| && Others(chain[c].plot)[i] == r;
        var p := Position(c, i + 1);
        assert At(chain, p) && RepAt(chain, p) == r;
      }
    }
  }

  lemma LooseStep(chain: Thread, c: nat)
    requires c < |chain|
    ensures Loose(chain[c..]) == Others(chain[c].plot) + Loose(chain[c + 1..])
  {
    assert chain[c..][1..] == chain[c + 1..];
  }

  // ---------- one plot ----------

  lemma {:induction false} WithoutPending(rs: seq<Representation>, ids: set<RepresentationID>, chain: Thread)
    requires forall r :: r in rs ==> (r.Id() in ids <==> Confirmed(chain, r.Id()))
    ensures Without(rs, ids) == Pending(chain, rs)
  {
    if rs != [] {
      hide Confirmed;
      assert rs[0] in rs;
      WithoutPending(rs[1..], ids, chain);
    }
  }

  /** Removing a connected plot's IDs from the queue leaves what the longer thread does not confirm. */
  lemma ConnectedQueue(rules: Rules, chain: Thread, e: Entry, queue: seq<Representation>)
    requires QueueOk(rules, chain, queue) && WellShaped(e.plot)
    ensures Without(queue, IdsIn(Ids(e.plot.reps)[1..])) == Pending(chain + [e], queue)
  {
    var reps := e.plot.reps;
    TailIds(reps);
    forall r | r in queue
      ensures r.Id() in IdsIn(Ids(reps)[1..]) <==> Confirmed(chain + [e], r.Id())
    {
      ConfirmedStep(chain, e, r.Id());
      IdTells(r, reps[0]);
    }
    WithoutPending(queue, IdsIn(Ids(reps)[1..]), chain + [e]);
  }

  /** Nothing queued is on the plot that goes, so the queue stays whole behind what comes back. */
  lemma DisconnectedQueue(rules: Rules, chain: Thread, e: Entry, queue: seq<Representation>)
    requires QueueOk(rules, chain + [e], queue) && WellShaped(e.plot)
    ensures e.plot.reps[1..] + Without(queue, IdSet(e.plot.reps[1..])) == Others(e.plot) + queue
  {
    TailIds(e.plot.reps);
    forall i | 0 <= i < |queue| ensures queue[i].Id() !in IdSet(e.plot.reps[1..]) {
      assert queue[i] in queue;
      ConfirmedStep(chain, e, queue[i].Id());
    }
    WithoutNone(queue, IdSet(e.plot.reps[1..]));
  }

  /** The pass over a queue in order leaves exactly what is due and paid for. */
  lemma PassedQueue(rules: Rules, chain: Thread, m: Imbalances, queue: seq<Representation>, height: int)
    requires QueueOk(rules, chain, queue)
    ensures Sieved(m, height + 1, queue, Reprocessed(rules, m, queue, height).kept)
  {
    PassKeepsWhatItApplies(rules, m, queue, height);
    PassSieves(rules, m, queue, height, Reprocessed(rules, m, queue, height).kept);
  }

  // ---------- whole moves ----------

  /** The fork below the new plot is the fork of the two threads if the new plot is not on the old one. */
  lemma ForkIsCommon(a: Thread, b: Thread)
    requires b != [] && !OnThread(a, b[|b| - 1].id)
    ensures Common(a, b) == Common(a, b[..|b| - 1])
  {
    var front := b[..|b| - 1];
    CommonMeans(a, front);
    var c := Common(a, front);
    assert b[..c] == front[..c];
    if c < |a| {
      assert a[c].id != b[|b| - 1].id;
    }
    CommonIs(a, b, c);
  }

  /** What is in the queue after going towards b, at a database that stands on its first n plots. */
  ghost predicate WentQueue(m: Imbalances, returned: seq<Representation>, b: Thread, n: nat,
                            after: seq<Representation>)
    requires n <= |b|
  {
    if n == |b| then Sieved(m, |b|, Pending(b, returned), after) else after == Pending(b[..n], returned)
  }

  lemma WentQueueFrom(m: Imbalances, returned: seq<Representation>, b: Thread, n: nat, after: seq<Representation>)
    requires n <= |b|
    requires if n == |b| then Sieved(m, |b|, Pending(b, returned), after) else after == Pending(b[..n], returned)
    ensures WentQueue(m, returned, b, n, after)
  {
  }

  /** A move that succeeds. */
  lemma RequeuedFrom(m: Imbalances, a: Thread, b: Thread, before: seq<Representation>, after: seq<Representation>)
    requires Common(a, b) <= |a| && WentQueue(m, Loose(a[Common(a, b)..]) + before, b, |b|, after)
    ensures Requeued(m, a, b, before, after)
  {
  }

  /** From no thread at all there is nothing to come back. */
  lemma NothingAbandoned(m: Imbalances, b: Thread, before: seq<Representation>, after: seq<Representation>)
    requires Sieved(m, |b|, Pending(b, before), after)
    ensures Requeued(m, [], b, before, after)
  {
    assert Loose(Abandoned([], b)) == [];
    assert [] + before == before;
  }

  /** Where all that comes back can be included and paid for, the move loses nothing and keeps the order. */
  lemma NothingIsLost(m: Imbalances, a: Thread, b: Thread, before: seq<Representation>, after: seq<Representation>)
    requires Requeued(m, a, b, before, after)
    requires var back := Pending(b, Loose(Abandoned(a, b)) + before);
      Funded(m, back) && forall r :: r in back ==> IncludableAt(r, |b|)
    ensures after == Pending(b, Loose(Abandoned(a, b)) + before)
    ensures forall r :: (r in Loose(Abandoned(a, b)) || r in before) && !Confirmed(b, r.Id()) ==> r in after
  {
    hide SievedAt, Funded, IncludableAt, Confirmed, Loose, Pending;
    var all := Loose(Abandoned(a, b)) + before;
    var back := Pending(b, all);
    var places: set<nat> :| SievedAt(m, |b|, back, after, places);
    AllPicked(m, |b|, back, after, places, |back|);
    assert back[..|back|] == back;
    SievePicks(m, |b|, back, after, places);
    PendingContents(b, all);
  }

  lemma SievePicks(m: Imbalances, height: int, queue: seq<Representation>, stay: seq<Representation>,
                   places: set<nat>)
    requires SievedAt(m, height, queue, stay, places)
    ensures stay == Picked(queue, places)
  {
  }

  lemma NothingLoose(run: Thread, queue: seq<Representation>)
    requires run == []
    ensures Loose(run) + queue == queue
  {
  }

  lemma LooseInFront(chain: Thread, c: nat, queue: seq<Representation>)
    requires c < |chain|
    ensures Others(chain[c].plot) + (Loose(chain[c + 1..]) + queue) == Loose(chain[c..]) + queue
  {
    LooseStep(chain, c);
  }

  /** A move that fails before it has begun. */
  lemma NothingRolledBack(rules: Rules, m: Imbalances, a: Thread, b: Thread, n: nat, before: seq<Representation>)
    requires n == |a| == Common(a, b) && n < |b| && ValidThread(rules, b[..n]) && !ValidThread(rules, b[..n + 1])
    ensures RolledBack(rules, m, a, b, before, before)
  {
    assert RolledBackAt(rules, m, a, b, before, before, n);
  }

  /** There and back again: the queue of a failed move. */
  lemma RolledBackFrom(rules: Rules, m': Imbalances, m: Imbalances, a: Thread, b: Thread, n: nat,
                       before: seq<Representation>, mid: seq<Representation>, after: seq<Representation>)
    requires Common(a, b) <= |a| && Common(a, b) <= n < |b|
    requires ValidThread(rules, b[..n]) && !ValidThread(rules, b[..n + 1]) && !(n == |a| == Common(a, b))
    requires Unconfirmed(a, before)
    requires WentQueue(m', Loose(a[Common(a, b)..]) + before, b, n, mid)
    requires WentQueue(m, Loose(b[Common(a, b)..n]) + mid, a, |a|, after)
    ensures RolledBack(rules, m, a, b, before, after)
  {
    hide Sieved, Confirmed, ValidThread, Loose, Pending;
    var c := Common(a, b);
    var own, theirs := Loose(a[c..]), Loose(b[c..n]);
    PendingConcat(a, theirs, mid);
    PendingCommutes(a, b[..n], own + before);
    PendingConcat(a, own, before);
    LooseConfirmed(a, c);
    PendingNone(a, own);
    PendingAll(a, before);
    assert [] + before == before;
    assert RolledBackAt(rules, m, a, b, before, after, n);
  }
}
