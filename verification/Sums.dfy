/** Sums over finite sets, in whatever order the elements are met. */
module Sums {

  ghost function Pick<K>(s: set<K>): (k: K)
    requires s != {}
    ensures k in s
  {
    var k :| k in s;
    k
  }

  ghost function Sum<K>(s: set<K>, f: K -> real): real {
    if s == {} then 0.0 else f(Pick(s)) + Sum(s - {Pick(s)}, f)
  }

  lemma SumNothing<K>(f: K -> real)
    ensures Sum({}, f) == 0.0
  {
  }

  /** Any element may be taken out first: the sum does not depend on an order. */
  lemma {:induction false} SumTake<K>(s: set<K>, k: K, f: K -> real)
    requires k in s
    ensures Sum(s, f) == f(k) + Sum(s - {k}, f)
  {
    var x := Pick(s);
    if x != k {
      SumTake(s - {x}, k, f);
      SumTake(s - {k}, x, f);
      assert s - {x} - {k} == s - {k} - {x};
    }
  }

  lemma {:induction false} SumDisjoint<K>(a: set<K>, b: set<K>, f: K -> real)
    requires a !! b
    ensures Sum(a + b, f) == Sum(a, f) + Sum(b, f)
  {
    if a == {} {
      assert a + b == b;
    } else {
      var x := Pick(a);
      SumTake(a + b, x, f);
      assert a + b - {x} == (a - {x}) + b;
      SumDisjoint(a - {x}, b, f);
    }
  }

  lemma {:induction false} SumPlus<K>(s: set<K>, f: K -> real, g: K -> real, h: K -> real)
    requires forall k :: k in s ==> h(k) == f(k) + g(k)
    ensures Sum(s, h) == Sum(s, f) + Sum(s, g)
  {
    if s != {} {
      SumPlus(s - {Pick(s)}, f, g, h);
    }
  }

  lemma {:induction false} SumSame<K>(s: set<K>, f: K -> real, g: K -> real)
    requires forall k :: k in s ==> f(k) == g(k)
    ensures Sum(s, f) == Sum(s, g)
  {
    if s != {} {
      SumSame(s - {Pick(s)}, f, g);
    }
  }

  lemma {:induction false} SumZero<K>(s: set<K>, f: K -> real)
    requires forall k :: k in s ==> f(k) == 0.0
    ensures Sum(s, f) == 0.0
  {
    if s != {} {
      SumZero(s - {Pick(s)}, f);
    }
  }

  /** Only one element contributes. */
  lemma SumPoint<K>(s: set<K>, k: K, f: K -> real)
    requires k in s && forall x :: x in s && x != k ==> f(x) == 0.0
    ensures Sum(s, f) == f(k)
  {
    SumTake(s, k, f);
    SumZero(s - {k}, f);
  }

  lemma {:induction false} SumScale<K>(s: set<K>, c: real, f: K -> real, g: K -> real)
    requires forall k :: k in s ==> g(k) == c * f(k)
    ensures Sum(s, g) == c * Sum(s, f)
  {
    if s != {} {
      SumScale(s - {Pick(s)}, c, f, g);
    }
  }

  ghost function ColumnSum<K, L>(s: set<K>, f: K -> (L -> real), l: L): real {
    Sum(s, k => f(k)(l))
  }

  lemma ColumnSumIs<K, L>(s: set<K>, f: K -> (L -> real), l: L, g: K -> real)
    requires forall k :: k in s ==> g(k) == f(k)(l)
    ensures ColumnSum(s, f, l) == Sum(s, g)
  {
    SumSame(s, k => f(k)(l), g);
  }

  /** Rows first or columns first, a table has one total. */
  lemma {:induction false} SumSwap<K, L>(s: set<K>, t: set<L>, f: K -> (L -> real), row: K -> real, column: L -> real)
    requires forall k :: k in s ==> row(k) == Sum(t, f(k))
    requires forall l :: l in t ==> column(l) == ColumnSum(s, f, l)
    ensures Sum(s, row) == Sum(t, column)
  {
    if s == {} {
      SumZero(t, column);
    } else {
      var x := Pick(s);
      var rest := (l: L) => ColumnSum(s - {x}, f, l);
      forall l | l in t ensures column(l) == f(x)(l) + rest(l) {
        SumTake(s, x, k => f(k)(l));
      }
      SumSwap(s - {x}, t, f, row, rest);
      SumPlus(t, f(x), rest, column);
    }
  }
}
