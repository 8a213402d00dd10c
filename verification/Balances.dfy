/**
 * Imbalances as a function of the list of representations applied so far.
 * A stored balance map holds no zero entries; a missing key has imbalance 0.
 */
module Balances {
  import opened Plots

  type Imbalances = map<PubKey, int>

  function Bal(m: Imbalances, k: PubKey): int {
    if k in m then m[k] else 0
  }

  /** The change one representation makes to the imbalance of `k`. */
  function Delta(r: Representation, k: PubKey): int {
    (if r.forKey == k then 1 else 0) - (if r.byKey == Some(k) then 1 else 0)
  }

  /** The change a list of representations makes to the imbalance of `k`. */
  function Net(rs: seq<Representation>, k: PubKey): int {
    if rs == [] then 0 else Net(rs[..|rs| - 1], k) + Delta(rs[|rs| - 1], k)
  }

  function PartiesOf(rs: seq<Representation>): set<PubKey> {
    set r, k | r in rs && k in r.Parties() :: k
  }

  /** Every sender holds at least 1 when its representation is reached. */
  ghost predicate Funded(m: Imbalances, rs: seq<Representation>) {
    forall n :: 0 <= n < |rs| ==> CanSend(m, rs[..n], rs[n])
  }

  ghost predicate CanSend(m: Imbalances, before: seq<Representation>, r: Representation) {
    r.byKey.Some? ==> Bal(m, r.byKey.value) + Net(before, r.byKey.value) >= 1
  }

  /** The stored map after applying `rs` to the stored map `m`. */
  ghost function Settle(m: Imbalances, rs: seq<Representation>): Imbalances {
    map k | k in m.Keys + PartiesOf(rs) && Bal(m, k) + Net(rs, k) != 0 :: Bal(m, k) + Net(rs, k)
  }

  /** The stored map after undoing `rs` on the stored map `m`. */
  ghost function Unsettle(m: Imbalances, rs: seq<Representation>): Imbalances {
    map k | k in m.Keys + PartiesOf(rs) && Bal(m, k) - Net(rs, k) != 0 :: Bal(m, k) - Net(rs, k)
  }

  /** Undoing `rs` from the last to the first never finds a recipient without credit. */
  ghost predicate Undoable(m: Imbalances, rs: seq<Representation>) {
    forall n :: 0 <= n < |rs| ==> CanDebit(m, rs[n + 1..], rs[n])
  }

  ghost predicate CanDebit(m: Imbalances, undone: seq<Representation>, r: Representation) {
    Bal(m, r.forKey) - Net(undone, r.forKey) + (if r.byKey == Some(r.forKey) then 1 else 0) >= 1
  }

  predicate NoZeros(m: Imbalances) {
    forall k :: k in m ==> m[k] != 0
  }

  predicate NonNegative(m: Imbalances) {
    forall k :: k in m ==> m[k] >= 0
  }

  // ---------- algebra ----------

  lemma {:induction false} NetConcat(a: seq<Representation>, b: seq<Representation>, k: PubKey)
    ensures Net(a + b, k) == Net(a, k) + Net(b, k)
  {
    if b == [] {
      assert a + b == a;
    } else {
      var c := b[..|b| - 1];
      NetConcat(a, c, k);
      assert (a + b)[..|a + b| - 1] == a + c;
    }
  }

  lemma NetOne(r: Representation, k: PubKey)
    ensures Net([r], k) == Delta(r, k)
  {
    assert [r][..0] == [];
  }

  lemma {:induction false} NetUninvolved(rs: seq<Representation>, k: PubKey)
    requires k !in PartiesOf(rs)
    ensures Net(rs, k) == 0
  {
    if rs != [] {
      var last := rs[|rs| - 1];
      assert last in rs;
      assert k !in last.Parties();
      assert PartiesOf(rs[..|rs| - 1]) <= PartiesOf(rs);
      NetUninvolved(rs[..|rs| - 1], k);
    }
  }

  lemma SettleBal(m: Imbalances, rs: seq<Representation>, k: PubKey)
    ensures Bal(Settle(m, rs), k) == Bal(m, k) + Net(rs, k)
  {
    if k !in m.Keys + PartiesOf(rs) {
      NetUninvolved(rs, k);
    }
  }

  lemma UnsettleBal(m: Imbalances, rs: seq<Representation>, k: PubKey)
    ensures Bal(Unsettle(m, rs), k) == Bal(m, k) - Net(rs, k)
  {
    if k !in m.Keys + PartiesOf(rs) {
      NetUninvolved(rs, k);
    }
  }

  /** A map without zeros is determined by its balances. */
  lemma BalancesDetermine(m: Imbalances, m': Imbalances)
    requires NoZeros(m) && NoZeros(m')
    requires forall k :: Bal(m, k) == Bal(m', k)
    ensures m == m'
  {
    forall k ensures k in m <==> k in m' {
      assert Bal(m, k) == Bal(m', k);
    }
    forall k | k in m ensures m[k] == m'[k] {
      assert Bal(m, k) == Bal(m', k);
    }
  }

  /** Settling in two steps is settling once; undoing what was settled gives the map back. */
  lemma SettleConcat(m: Imbalances, a: seq<Representation>, b: seq<Representation>)
    ensures Settle(Settle(m, a), b) == Settle(m, a + b)
  {
    forall k ensures Bal(Settle(Settle(m, a), b), k) == Bal(Settle(m, a + b), k) {
      SettleBal(m, a, k);
      SettleBal(Settle(m, a), b, k);
      SettleBal(m, a + b, k);
      NetConcat(a, b, k);
    }
    BalancesDetermine(Settle(Settle(m, a), b), Settle(m, a + b));
  }

  lemma UnsettleSettle(m: Imbalances, rs: seq<Representation>)
    requires NoZeros(m)
    ensures Unsettle(Settle(m, rs), rs) == m
  {
    forall k ensures Bal(Unsettle(Settle(m, rs), rs), k) == Bal(m, k) {
      SettleBal(m, rs, k);
      UnsettleBal(Settle(m, rs), rs, k);
    }
    BalancesDetermine(Unsettle(Settle(m, rs), rs), m);
  }

  lemma FundedConcat(m: Imbalances, a: seq<Representation>, b: seq<Representation>)
    ensures Funded(m, a + b) <==> Funded(m, a) && Funded(Settle(m, a), b)
  {
    forall n | 0 <= n < |a|
      ensures CanSend(m, (a + b)[..n], (a + b)[n]) <==> CanSend(m, a[..n], a[n])
    {
      assert (a + b)[..n] == a[..n];
    }
    forall n | 0 <= n < |b|
      ensures CanSend(m, (a + b)[..|a| + n], (a + b)[|a| + n]) <==> CanSend(Settle(m, a), b[..n], b[n])
    {
      assert (a + b)[..|a| + n] == a + b[..n];
      if b[n].byKey.Some? {
        NetConcat(a, b[..n], b[n].byKey.value);
        SettleBal(m, a, b[n].byKey.value);
      }
    }
    if Funded(m, a + b) {
      forall n | 0 <= n < |a| ensures CanSend(m, a[..n], a[n]) {
        assert CanSend(m, (a + b)[..n], (a + b)[n]);
      }
      forall n | 0 <= n < |b| ensures CanSend(Settle(m, a), b[..n], b[n]) {
        assert CanSend(m, (a + b)[..|a| + n], (a + b)[|a| + n]);
      }
    }
    if Funded(m, a) && Funded(Settle(m, a), b) {
      forall n | 0 <= n < |a + b| ensures CanSend(m, (a + b)[..n], (a + b)[n]) {
        if n < |a| {
          assert CanSend(m, a[..n], a[n]);
        } else {
          assert CanSend(Settle(m, a), b[..n - |a|], b[n - |a|]);
        }
      }
    }
  }

  lemma FundedPrefix(m: Imbalances, rs: seq<Representation>, n: nat)
    requires n <= |rs| && Funded(m, rs)
    ensures Funded(m, rs[..n])
  {
    assert rs == rs[..n] + rs[n..];
    FundedConcat(m, rs[..n], rs[n..]);
  }

  lemma FundedStep(m: Imbalances, rs: seq<Representation>, r: Representation)
    ensures Funded(m, rs + [r]) <==> Funded(m, rs) && CanSend(m, rs, r)
  {
    FundedConcat(m, rs, [r]);
    assert [r][..0] == [];
    if r.byKey.Some? {
      SettleBal(m, rs, r.byKey.value);
    }
    assert Funded(Settle(m, rs), [r]) <==> CanSend(Settle(m, rs), [r][..0], [r][0]);
  }

  /** Funding keeps every imbalance non-negative at every point. */
  lemma {:induction false} FundedStaysNonNegative(m: Imbalances, rs: seq<Representation>, k: PubKey)
    requires NonNegative(m) && Funded(m, rs)
    ensures Bal(m, k) + Net(rs, k) >= 0
  {
    if rs != [] {
      var n := |rs| - 1;
      FundedPrefix(m, rs, n);
      FundedStaysNonNegative(m, rs[..n], k);
      assert CanSend(m, rs[..n], rs[n]);
    }
  }

  lemma SettledNonNegative(m: Imbalances, rs: seq<Representation>)
    requires NonNegative(m) && Funded(m, rs)
    ensures NonNegative(Settle(m, rs))
  {
    forall k | k in Settle(m, rs) ensures Settle(m, rs)[k] >= 0 {
      FundedStaysNonNegative(m, rs, k);
    }
  }

  /** What was funded when applied can be undone without any recipient going negative. */
  lemma FundedIsUndoable(m: Imbalances, rs: seq<Representation>)
    requires NonNegative(m) && Funded(m, rs)
    ensures Undoable(Settle(m, rs), rs)
  {
    forall n | 0 <= n < |rs| ensures CanDebit(Settle(m, rs), rs[n + 1..], rs[n]) {
      CreditLeft(m, rs, n);
    }
  }

  lemma CreditLeft(m: Imbalances, rs: seq<Representation>, n: nat)
    requires n < |rs| && NonNegative(m) && Funded(m, rs)
    ensures CanDebit(Settle(m, rs), rs[n + 1..], rs[n])
  {
    var k := rs[n].forKey;
    var rest := rs[n + 1..];
    assert Bal(Settle(m, rs), k) - Net(rest, k) == Bal(m, k) + Net(rs[..n + 1], k) by {
      SettleBal(m, rs, k);
      assert rs == rs[..n + 1] + rest;
      NetConcat(rs[..n + 1], rest, k);
    }
    assert Net(rs[..n + 1], k) == Net(rs[..n], k) + Delta(rs[n], k) by {
      assert rs[..n + 1] == rs[..n] + [rs[n]];
      NetConcat(rs[..n], [rs[n]], k);
      NetOne(rs[n], k);
    }
    FundedPrefix(m, rs, n);
    FundedStaysNonNegative(m, rs[..n], k);
  }

  /** A plotroot credit can only help what comes after it. */
  lemma CreditKeepsFunded(m: Imbalances, credit: Representation, rs: seq<Representation>)
    requires credit.IsPlotroot() && Funded(m, rs)
    ensures Funded(m, [credit] + rs)
  {
    forall n | 0 <= n < |[credit] + rs|
      ensures CanSend(m, ([credit] + rs)[..n], ([credit] + rs)[n])
    {
      if n > 0 {
        assert CanSend(m, rs[..n - 1], rs[n - 1]);
        assert ([credit] + rs)[..n] == [credit] + rs[..n - 1];
        if rs[n - 1].byKey.Some? {
          NetConcat([credit], rs[..n - 1], rs[n - 1].byKey.value);
          NetOne(credit, rs[n - 1].byKey.value);
        }
      }
    }
  }
}
