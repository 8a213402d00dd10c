/** What the imbalances add up to: one for every plotroot that has matured. */
module Conservation {
  import opened Plots
  import opened Balances
  import opened LedgerSpec
  import opened LedgerProofs
  import opened Sums

  ghost function StoredBalance(m: Imbalances): PubKey -> real {
    k => Bal(m, k) as real
  }

  ghost function Total(m: Imbalances): int {
    Sum(m.Keys, StoredBalance(m)).Floor
  }

  function Plotroots(rs: seq<Representation>): nat {
    if rs == [] then 0
    else Plotroots(rs[..|rs| - 1]) + (if rs[|rs| - 1].IsPlotroot() then 1 else 0)
  }

  lemma {:induction false} PlotrootsConcat(a: seq<Representation>, b: seq<Representation>)
    ensures Plotroots(a + b) == Plotroots(a) + Plotroots(b)
  {
    if b == [] {
      assert a + b == a;
    } else {
      PlotrootsConcat(a, b[..|b| - 1]);
      assert (a + b)[..|a + b| - 1] == a + b[..|b| - 1];
    }
  }

  /** One representation moves a unit between two keys, a plotroot creates one. */
  lemma DeltaSum(s: set<PubKey>, r: Representation)
    requires r.Parties() <= s
    ensures Sum(s, k => Delta(r, k) as real) == if r.IsPlotroot() then 1.0 else 0.0
  {
    var credit := (k: PubKey) => if r.forKey == k then 1.0 else 0.0;
    var debit := (k: PubKey) => if r.byKey == Some(k) then -1.0 else 0.0;
    SumPlus(s, credit, debit, k => Delta(r, k) as real);
    SumPoint(s, r.forKey, credit);
    if r.IsPlotroot() {
      SumZero(s, debit);
    } else {
      SumPoint(s, r.byKey.value, debit);
    }
  }

  lemma {:induction false} NetSum(s: set<PubKey>, rs: seq<Representation>)
    requires PartiesOf(rs) <= s
    ensures Sum(s, k => Net(rs, k) as real) == Plotroots(rs) as real
  {
    if rs == [] {
      SumZero(s, k => Net(rs, k) as real);
    } else {
      var front, last := rs[..|rs| - 1], rs[|rs| - 1];
      assert last in rs;
      assert last.Parties() <= PartiesOf(rs);
      NetSum(s, front);
      DeltaSum(s, last);
      SumPlus(s, k => Net(front, k) as real, k => Delta(last, k) as real, k => Net(rs, k) as real);
    }
  }

  /** Keys with imbalance zero are not stored, and do not matter for the sum. */
  lemma SettledTotal(rs: seq<Representation>)
    ensures Total(Settle(map[], rs)) == Plotroots(rs)
  {
    var m, s := Settle(map[], rs), PartiesOf(rs);
    NetSum(s, rs);
    var net := (k: PubKey) => Net(rs, k) as real;
    assert m.Keys <= s;
    assert s == m.Keys + (s - m.Keys);
    SumDisjoint(m.Keys, s - m.Keys, net);
    SumZero(s - m.Keys, net);
    SumSame(m.Keys, net, StoredBalance(m));
  }

  lemma {:induction false} EffectsPlotroots(reps: seq<Representation>, maturing: Option<Representation>)
    requires reps != [] && reps[0].IsPlotroot() && (maturing.Some? ==> maturing.value.IsPlotroot())
    requires forall i :: 1 <= i < |reps| ==> !reps[i].IsPlotroot()
    ensures Plotroots(EffectsOf(reps, maturing)) == if maturing.Some? then 1 else 0
  {
    var front, last := reps[..|reps| - 1], reps[|reps| - 1];
    PlotrootsConcat(EffectsOf(front, maturing), EffectOf(last, maturing));
    if front != [] {
      EffectsPlotroots(front, maturing);
    }
  }

  lemma EffectsAtPlotroots(chain: Thread, h: nat)
    requires IsThread(chain) && h < |chain|
    ensures Plotroots(EffectsAt(chain, h)) == if h >= PLOTROOT_MATURITY then 1 else 0
  {
    assert LinkOk(chain, h);
    if h >= PLOTROOT_MATURITY {
      assert LinkOk(chain, h - PLOTROOT_MATURITY);
    }
    EffectsPlotroots(chain[h].plot.reps, RootMaturing(chain, h));
  }

  /** A thread of n plots has matured its first n - 100 plotroots. */
  lemma {:induction false} ThreadPlotroots(chain: Thread)
    requires IsThread(chain)
    ensures Plotroots(ThreadEffects(chain)) == if |chain| > PLOTROOT_MATURITY then |chain| - PLOTROOT_MATURITY else 0
  {
    if chain != [] {
      ThreadPlotroots(Front(chain));
      EffectsAtPlotroots(chain, |chain| - 1);
      PlotrootsConcat(ThreadEffects(Front(chain)), EffectsAt(chain, |chain| - 1));
    }
  }

  /** At tip height H the imbalances are non-negative and add up to max(0, H - 99). */
  lemma ImbalancesConserved(rules: Rules, db: Database, chain: Thread)
    requires Reflects(rules, db, chain) && ValidThread(rules, chain) && chain != []
    ensures NonNegative(db.imbalances) && NoZeros(db.imbalances)
    ensures var height := db.tip.value.height;
      Total(db.imbalances) == if height - PLOTROOT_MATURITY >= 0 then height - PLOTROOT_MATURITY + 1 else 0
  {
    SettledTotal(ThreadEffects(chain));
    ThreadPlotroots(chain);
    SettledNonNegative(map[], ThreadEffects(chain));
  }
}
