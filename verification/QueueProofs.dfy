/** The queue holds only what the ledger does not: kept by connecting, disconnecting and reprocessing. */
module QueueProofs {
  import opened Plots
  import opened Balances
  import opened LedgerSpec
  import opened LedgerProofs
  import opened LedgerDisk
  import opened QueueSpec

  /** Verified representations of the right shape that the guard lets through, none of them on the thread. */
  ghost predicate QueueOk(rules: Rules, chain: Thread, queue: seq<Representation>) {
    && QueueShape(queue)
    && Unconfirmed(chain, queue)
    && forall r :: r in queue ==> Checked(rules, r) && !rules.guard(r)
  }

  lemma ConfirmedStep(chain: Thread, e: Entry, id: RepresentationID)
    ensures Confirmed(chain + [e], id) <==> Confirmed(chain, id) || id in IdSet(e.plot.reps)
  {
    var longer, h := chain + [e], |chain|;
    assert longer[h] == e;
    if Confirmed(longer, id) {
      var p :| At(longer, p) && RepAt(longer, p).Id() == id;
      if p.height == h {
        assert e.plot.reps[p.index].Id() == id;
      } else {
        assert At(chain, p) && RepAt(chain, p) == RepAt(longer, p);
      }
    }
    if Confirmed(chain, id) {
      var p :| At(chain, p) && RepAt(chain, p).Id() == id;
      assert At(longer, p) && RepAt(longer, p) == RepAt(chain, p);
    }
    if id in IdSet(e.plot.reps) {
      var i :| 0 <= i < |e.plot.reps| && e.plot.reps[i].Id() == id;
      assert At(longer, Position(h, i)) && RepAt(longer, Position(h, i)).Id() == id;
    }
  }

  /** Without the plotroot's, a plot's IDs are those of its other representations. */
  lemma TailIds(reps: seq<Representation>)
    requires reps != []
    ensures IdsIn(Ids(reps)[1..]) == IdSet(reps[1..])
    ensures IdSet(reps) == IdSet(reps[1..]) + {reps[0].Id()}
  {
    var ids := Ids(reps)[1..];
    forall id ensures id in IdsIn(ids) <==> id in IdSet(reps[1..]) {
      if id in IdsIn(ids) {
        var i :| 0 <= i < |ids| && ids[i] == id;
        assert reps[1..][i].Id() == id;
      }
      if id in IdSet(reps[1..]) {
        var i :| 0 <= i < |reps| - 1 && reps[1..][i].Id() == id;
        assert ids[i] == id;
      }
    }
    forall id ensures id in IdSet(reps) <==> id in IdSet(reps[1..]) + {reps[0].Id()} {
      if id in IdSet(reps) && id != reps[0].Id() {
        var i :| 0 <= i < |reps| && reps[i].Id() == id;
        assert reps[1..][i - 1].Id() == id;
      }
      if id in IdSet(reps[1..]) {
        var i :| 0 <= i < |reps| - 1 && reps[1..][i].Id() == id;
        assert reps[i + 1].Id() == id;
      }
    }
  }

  /** Equal IDs mean equal parties, and with equal signatures equal representations. */
  lemma IdTells(r: Representation, r': Representation)
    ensures r.Id() == r'.Id() ==> r.byKey == r'.byKey && r.forKey == r'.forKey
    ensures r.Id() == r'.Id() && r.signature == r'.signature ==> r == r'
  {
    if r.Id() == r'.Id() {
      assert r.(signature := []) == r'.(signature := []);
    }
  }

  /** Connecting a plot: what it confirms leaves the queue, the rest is still unconfirmed. */
  lemma ConnectKeepsQueue(rules: Rules, chain: Thread, e: Entry, queue: seq<Representation>)
    requires QueueOk(rules, chain, queue) && WellShaped(e.plot)
    ensures QueueOk(rules, chain + [e], Without(queue, IdsIn(Ids(e.plot.reps)[1..])))
  {
    var reps := e.plot.reps;
    var gone := IdsIn(Ids(reps)[1..]);
    var left := Without(queue, gone);
    TailIds(reps);
    WithoutContents(queue, gone);
    WithoutDistinct(queue, gone);
    forall r | r in left ensures !Confirmed(chain + [e], r.Id()) {
      ConfirmedStep(chain, e, r.Id());
      IdTells(r, reps[0]);
    }
  }

  /** What a pass keeps is part of the queue. */
  lemma PassKeepsQueue(rules: Rules, chain: Thread, m: Imbalances, queue: seq<Representation>, height: int)
    requires QueueOk(rules, chain, queue)
    ensures QueueOk(rules, chain, Reprocessed(rules, m, queue, height).kept)
  {
    PassShape(rules, m, queue, height);
    PassIsFunded(rules, m, queue, height);
  }

  lemma ConcatShape(a: seq<Representation>, b: seq<Representation>)
    requires QueueShape(a) && QueueShape(b)
    requires forall r, r' :: r in a && r' in b ==> r.Id() != r'.Id()
    ensures QueueShape(a + b)
  {
    forall i, j | 0 <= i < j < |a + b| ensures (a + b)[i].Id() != (a + b)[j].Id() {
      if i < |a| <= j {
        assert a[i] in a && b[j - |a|] in b;
      }
    }
  }

  /** What a valid thread's last plot confirms besides its plotroot, the guard lets through. */
  lemma PlotUnguarded(rules: Rules, chain: Thread, e: Entry)
    requires ValidThread(rules, chain + [e])
    ensures WellShaped(e.plot) && forall i :: 1 <= i < |e.plot.reps| ==> !rules.guard(e.plot.reps[i])
  {
    hide NoRepeats, Funded, SeriesRight, EffectsOf, ThreadEffects;
    var longer, h, reps := chain + [e], |chain|, e.plot.reps;
    assert LinkOk(longer, h) && longer[h] == e;
    ThreadPrefix(longer, h);
    assert longer[..h] == chain;
    ThreadEffectsStep(chain, e);
    var maturing := RootMaturing(longer, h);
    NextEffects(reps[0], reps[1..], maturing);
    assert reps == [reps[0]] + reps[1..];
    var before, first := ThreadEffects(chain), if maturing.Some? then [maturing.value] else [];
    forall i | 1 <= i < |reps| ensures !rules.guard(reps[i]) {
      assert ThreadEffects(longer)[|before| + |first| + i - 1] == reps[i];
    }
  }

  /** Disconnecting a plot: its representations are unconfirmed again and come first. */
  lemma DisconnectKeepsQueue(rules: Rules, chain: Thread, e: Entry, queue: seq<Representation>)
    requires QueueOk(rules, chain + [e], queue) && WellShaped(e.plot) && NoRepeats(chain + [e])
    requires forall i :: 1 <= i < |e.plot.reps| ==> Checked(rules, e.plot.reps[i]) && !rules.guard(e.plot.reps[i])
    ensures QueueOk(rules, chain, e.plot.reps[1..] + Without(queue, IdSet(e.plot.reps[1..])))
  {
    var back, ids := e.plot.reps[1..], IdSet(e.plot.reps[1..]);
    var rest := Without(queue, ids);
    assert forall i :: 0 <= i < |back| ==> back[i] == e.plot.reps[i + 1];
    WithoutContents(queue, ids);
    WithoutDistinct(queue, ids);
    forall r | r in rest ensures !Confirmed(chain, r.Id()) {
      ConfirmedStep(chain, e, r.Id());
    }
    forall r | r in back ensures !Confirmed(chain, r.Id()) && r.Id() in ids {
      var i :| 0 <= i < |back| && back[i] == r;
      NotConfirmedBefore(chain, e, i + 1);
    }
    ConcatShape(back, rest);
  }

  lemma NotConfirmedBefore(chain: Thread, e: Entry, i: nat)
    requires NoRepeats(chain + [e]) && i < |e.plot.reps|
    ensures !Confirmed(chain, e.plot.reps[i].Id())
  {
    assert (chain + [e])[|chain|] == e;
    var q := Position(|chain|, i);
    assert At(chain + [e], q) && RepAt(chain + [e], q) == e.plot.reps[i];
    if Confirmed(chain, e.plot.reps[i].Id()) {
      var p :| At(chain, p) && RepAt(chain, p).Id() == e.plot.reps[i].Id();
      StillConfirmed(chain, e, p);
      assert false;
    }
  }
}
