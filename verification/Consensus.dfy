/** Work, targets, comparison of threads and the median timestamp. */
module Consensus {
  import opened Plots

  const INITIAL_TARGET: nat := 0xffff_0000_0000_0000_0000_0000_0000_0000_0000_0000_0000_0000_0000_0000
  const RETARGET_INTERVAL := 2016
  const RETARGET_TIME := 1209600
  const TARGET_SPACING := 600
  const RETARGET_SMA_WINDOW := 144
  const NUM_PLOTS_FOR_MEDIAN_TIMESTAMP := 11
  const BITCOIN_CASH_RETARGET_ALGORITHM_HEIGHT := 28861

  // ---------- work ----------

  function PlotWork(target: nat): nat {
    if target == 0 then 0 else TWO_256 / (target + 1)
  }

  /** Writes a number into 32 bytes; None stands for the panic when it does not fit. */
  function SetBigInt(i: int): Option<nat> {
    var magnitude := if i < 0 then -i else i;
    if magnitude < TWO_256 then Some(magnitude) else None
  }

  function ThreadWork(target: nat, threadWork: nat): Option<nat> {
    SetBigInt(threadWork + PlotWork(target))
  }

  /** Whether the first header is the better tip: more work, then stored earlier, then the lesser ID. */
  predicate Compare(ours: PlotHeader, theirs: PlotHeader, ourWhen: int, theirWhen: int, ourID: PlotID,
                    theirID: PlotID) {
    if ours.threadWork > theirs.threadWork then true
    else if ours.threadWork < theirs.threadWork then false
    else if ourWhen < theirWhen then true
    else if ourWhen > theirWhen then false
    else ourID < theirID
  }

  /** Compare on stored plots. */
  predicate Beats(plots: Plots, a: PlotID, b: PlotID)
    requires a in plots && b in plots
  {
    Compare(plots[a].plot.header, plots[b].plot.header, plots[a].when, plots[b].when, a, b)
  }

  lemma BeatsIsStrictTotalOrder(plots: Plots, a: PlotID, b: PlotID, c: PlotID)
    requires a in plots && b in plots && c in plots
    ensures !Beats(plots, a, a)
    ensures Beats(plots, a, b) && Beats(plots, b, c) ==> Beats(plots, a, c)
    ensures a != b ==> (Beats(plots, a, b) <==> !Beats(plots, b, a))
  {
  }

  /** Which of two stored plots should be the tip: more work, or as much and stored earlier, or a lesser ID besides. */
  predicate Outranks(plots: Plots, a: PlotID, b: PlotID) {
    && a in plots && b in plots
    && var work, when := plots[a].plot.header.threadWork, plots[a].when;
      var work', when' := plots[b].plot.header.threadWork, plots[b].when;
      work > work' || (work == work' && when < when') || (work == work' && when == when' && a < b)
  }

  lemma BeatsIsOutranking(plots: Plots, a: PlotID, b: PlotID)
    requires a in plots && b in plots
    ensures Beats(plots, a, b) <==> Outranks(plots, a, b)
  {
  }

  // ---------- division ----------

  /** a / b is the largest q with q * b <= a. */
  lemma QuotientBounds(a: int, b: int, q: int)
    requires b > 0
    ensures q * b <= a <==> q <= a / b
  {
    var d := a / b;
    assert a == d * b + a % b;
    if q <= d {
      assert q * b <= d * b;
    } else {
      assert q * b >= (d + 1) * b;
    }
  }

  lemma QuotientFalls(a: nat, b: int, c: int)
    requires 0 < b <= c
    ensures a / c <= a / b
  {
    var q := a / c;
    QuotientBounds(a, c, q);
    QuotientBounds(a, b, q);
    QuotientBounds(a, c, 0);
    ProductRises(q, b, c);
  }

  lemma ProductRises(q: int, b: int, c: int)
    requires q >= 0 && b <= c
    ensures q * b <= q * c
  {
  }

  lemma QuotientRises(a: int, a': int, b: int)
    requires 0 < b && a <= a'
    ensures a / b <= a' / b
  {
    QuotientBounds(a, b, a / b);
    QuotientBounds(a', b, a / b);
  }

  /** A header's work is its parent's and its own. */
  predicate Worked(headers: seq<PlotHeader>, i: nat)
    requires 1 <= i < |headers|
  {
    ThreadWork(headers[i].target, headers[i - 1].threadWork) == Some(headers[i].threadWork)
  }

  /** The work that the headers above index lo and up to index i stand for. */
  function WorkBetween(headers: seq<PlotHeader>, lo: nat, i: nat): nat
    requires i < |headers|
  {
    if i <= lo then 0 else WorkBetween(headers, lo, i - 1) + PlotWork(headers[i].target)
  }

  /** Cumulative work is just that: it grows by the sum of what the headers stand for. */
  lemma {:induction false} WorkAddsUp(headers: seq<PlotHeader>, lo: nat, i: nat)
    requires lo <= i < |headers| && forall j :: lo < j <= i ==> Worked(headers, j)
    ensures headers[i].threadWork == headers[lo].threadWork + WorkBetween(headers, lo, i)
  {
    if lo < i {
      WorkAddsUp(headers, lo, i - 1);
      assert Worked(headers, i);
      hide PlotWork;
    }
  }

  /** A target that fits 256 bits stands for at least one unit of work. */
  lemma WorkIsPositive(target: nat)
    requires 0 < target < TWO_256
    ensures PlotWork(target) >= 1
  {
    QuotientBounds(TWO_256, target + 1, 1);
  }

  // ---------- targets ----------

  function Clamp(x: int, lo: int, hi: int): int {
    if x < lo then lo else if x > hi then hi else x
  }

  /** Scales the previous target by the time the interval took, a factor within [1/4, 4]. */
  function Retargeted(prevTarget: nat, firstTime: int, lastTime: int): nat {
    var timespan := Clamp(lastTime - firstTime, RETARGET_TIME / 4, RETARGET_TIME * 4);
    var target := prevTarget * timespan / RETARGET_TIME;
    if target > INITIAL_TARGET then INITIAL_TARGET else target
  }

  /** How many plots back the interval that ends at a plot of height n - 1 starts. */
  function PlotsToGoBack(n: nat): nat {
    if n == RETARGET_INTERVAL then RETARGET_INTERVAL - 1 else RETARGET_INTERVAL
  }

  /** The original rule, on the headers up to and including the parent. */
  function BitcoinTarget(headers: seq<PlotHeader>): nat
    requires headers != []
  {
    var n := |headers|;
    var prev := headers[n - 1];
    if n % RETARGET_INTERVAL != 0 then prev.target
    else Retargeted(prev.target, headers[n - 1 - PlotsToGoBack(n)].time, prev.time)
  }

  /** Estimated work per spacing over the window, the time bounded to [72, 288] spacings. */
  function WindowWork(first: PlotHeader, prev: PlotHeader): int {
    var timespan := Clamp(prev.time - first.time,
                          (RETARGET_SMA_WINDOW / 2) * TARGET_SPACING, 2 * RETARGET_SMA_WINDOW * TARGET_SPACING);
    (prev.threadWork - first.threadWork) * TARGET_SPACING / timespan
  }

  /** The revised rule; None stands for a division by zero or a number over 32 bytes. */
  function WindowTarget(first: PlotHeader, prev: PlotHeader): Option<nat> {
    var work := WindowWork(first, prev);
    if work == 0 then None
    else
      var target := TWO_256 / work - 1;
      if target > INITIAL_TARGET then Some(INITIAL_TARGET) else SetBigInt(target)
  }

  /** The target rule for the plot after `headers`, with its own ancestor at the window's start. */
  function ThreadTarget(headers: seq<PlotHeader>): Option<nat>
    requires headers != []
  {
    var n := |headers|;
    if n - 1 >= BITCOIN_CASH_RETARGET_ALGORITHM_HEIGHT
    then WindowTarget(headers[n - 1 - RETARGET_SMA_WINDOW], headers[n - 1])
    else Some(BitcoinTarget(headers))
  }

  /** Headers from a genesis at the initial target on, each with its declared target and work right. */
  predicate WorkThread(headers: seq<PlotHeader>) {
    && headers != []
    && headers[0].target == INITIAL_TARGET
    && (forall i :: 1 <= i < |headers| ==> Earned(headers, i))
  }

  predicate Earned(headers: seq<PlotHeader>, i: nat)
    requires 1 <= i < |headers|
  {
    && ThreadTarget(headers[..i]) == Some(headers[i].target)
    && ThreadWork(headers[i].target, headers[i - 1].threadWork) == Some(headers[i].threadWork)
  }

  /** The time bounds of the window bound the work estimate by the window's work. */
  lemma WindowWorkBounds(first: PlotHeader, prev: PlotHeader)
    requires prev.threadWork >= first.threadWork
    ensures var d := prev.threadWork - first.threadWork;
      d / (2 * RETARGET_SMA_WINDOW) <= WindowWork(first, prev) <= d / (RETARGET_SMA_WINDOW / 2)
  {
    var d := prev.threadWork - first.threadWork;
    var lo, hi := (RETARGET_SMA_WINDOW / 2) * TARGET_SPACING, 2 * RETARGET_SMA_WINDOW * TARGET_SPACING;
    var timespan := Clamp(prev.time - first.time, lo, hi);
    QuotientFalls(d * TARGET_SPACING, lo, timespan);
    QuotientFalls(d * TARGET_SPACING, timespan, hi);
    SpacingsCancel(d);
  }

  lemma SpacingsCancel(d: nat)
    ensures d * TARGET_SPACING / ((RETARGET_SMA_WINDOW / 2) * TARGET_SPACING) == d / (RETARGET_SMA_WINDOW / 2)
    ensures d * TARGET_SPACING / (2 * RETARGET_SMA_WINDOW * TARGET_SPACING) == d / (2 * RETARGET_SMA_WINDOW)
  {
    WholePart(d, 72, 43200);
    WholePart(d, 288, 172800);
  }

  lemma WholePart(d: nat, a: int, b: int)
    requires (a == 72 && b == 43200) || (a == 144 && b == 86400) || (a == 288 && b == 172800)
    ensures d * 600 / b == d / a
  {
    var q, r := d / a, d % a;
    assert d * 600 == q * b + 600 * r;
    QuotientBounds(d * 600, b, q);
    QuotientBounds(d * 600, b, q + 1);
  }

  /** The target computed from an estimate up to 2^128 stands for that estimate again. */
  lemma WindowTargetEarnsItsEstimate(first: PlotHeader, prev: PlotHeader)
    requires 0 < WindowWork(first, prev) <= 0x1_0000_0000_0000_0000_0000_0000_0000_0000
    requires TWO_256 / WindowWork(first, prev) - 1 <= INITIAL_TARGET
    ensures WindowTarget(first, prev).Some?
    ensures PlotWork(WindowTarget(first, prev).value) == WindowWork(first, prev)
  {
    var w := WindowWork(first, prev);
    var q := TWO_256 / w;
    var root := 0x1_0000_0000_0000_0000_0000_0000_0000_0000;
    assert root * root == TWO_256;
    QuotientFalls(TWO_256, w, root);
    assert TWO_256 / root == root;
    assert q >= root;
    assert TWO_256 == q * w + TWO_256 % w;
    assert TWO_256 % w < w <= q;
    QuotientBounds(TWO_256, q, w);
    QuotientBounds(TWO_256, q, w + 1);
    assert (w + 1) * q == q * w + q;
  }

  lemma WindowStaysInRange(first: PlotHeader, prev: PlotHeader)
    requires prev.threadWork < TWO_256
    requires prev.threadWork - first.threadWork >= 2 * RETARGET_SMA_WINDOW
    ensures WindowTarget(first, prev).Some? && 71 <= WindowTarget(first, prev).value <= INITIAL_TARGET
  {
    var d := prev.threadWork - first.threadWork;
    WindowWorkBounds(first, prev);
    var w := WindowWork(first, prev);
    QuotientBounds(d, 2 * RETARGET_SMA_WINDOW, 1);
    assert 1 <= w;
    assert w * 72 <= d by { QuotientBounds(d, 72, w); }
    QuotientBounds(TWO_256, w, 72);
  }

  /** The initial target after k retargets by a quarter. */
  function Floor(k: nat): nat {
    if k == 0 then INITIAL_TARGET else Floor(k - 1) / 4
  }

  lemma {:induction false} FloorFalls(k: nat, k': nat)
    requires k <= k'
    ensures Floor(k') <= Floor(k)
  {
    if k < k' {
      FloorFalls(k, k' - 1);
    }
  }

  lemma RetargetedInRange(prevTarget: nat, firstTime: int, lastTime: int)
    ensures prevTarget / 4 <= Retargeted(prevTarget, firstTime, lastTime)
            || Retargeted(prevTarget, firstTime, lastTime) == INITIAL_TARGET
    ensures Retargeted(prevTarget, firstTime, lastTime) <= INITIAL_TARGET
  {
    var timespan := Clamp(lastTime - firstTime, RETARGET_TIME / 4, RETARGET_TIME * 4);
    assert prevTarget * (RETARGET_TIME / 4) / RETARGET_TIME == prevTarget / 4;
    assert prevTarget * (RETARGET_TIME / 4) <= prevTarget * timespan;
    QuotientRises(prevTarget * (RETARGET_TIME / 4), prevTarget * timespan, RETARGET_TIME);
  }

  // ---------- how time moves targets ----------

  /** An interval that takes exactly the time meant for it keeps the target. */
  lemma OnTimeKeepsTarget(prevTarget: nat, firstTime: int)
    requires prevTarget <= INITIAL_TARGET
    ensures Retargeted(prevTarget, firstTime, firstTime + RETARGET_TIME) == prevTarget
  {
  }

  /** The longer the interval took, and the higher the target was, the higher the next. */
  lemma SlowIntervalsEase(prevTarget: nat, prevTarget': nat, firstTime: int, firstTime': int, lastTime: int,
                          lastTime': int)
    requires prevTarget <= prevTarget' && lastTime - firstTime <= lastTime' - firstTime'
    ensures Retargeted(prevTarget, firstTime, lastTime) <= Retargeted(prevTarget', firstTime', lastTime')
  {
    var span := Clamp(lastTime - firstTime, RETARGET_TIME / 4, RETARGET_TIME * 4);
    var span' := Clamp(lastTime' - firstTime', RETARGET_TIME / 4, RETARGET_TIME * 4);
    ProductsRise(prevTarget, prevTarget', span, span');
    QuotientRises(prevTarget * span, prevTarget' * span', RETARGET_TIME);
  }

  lemma ProductsRise(a: nat, a': nat, b: nat, b': nat)
    requires a <= a' && b <= b'
    ensures a * b <= a' * b'
  {
    ProductRises(a, b, b');
    ProductRises(b', a, a');
  }

  /** Too quick or too slow by more than a factor of 4 counts as a factor of 4. */
  lemma ExtremeIntervals(prevTarget: nat, firstTime: int, lastTime: int)
    requires prevTarget <= INITIAL_TARGET
    ensures lastTime - firstTime <= RETARGET_TIME / 4 ==>
              Retargeted(prevTarget, firstTime, lastTime) == prevTarget / 4
    ensures lastTime - firstTime >= RETARGET_TIME * 4 ==>
              Retargeted(prevTarget, firstTime, lastTime)
              == if 4 * prevTarget > INITIAL_TARGET then INITIAL_TARGET else 4 * prevTarget
  {
  }

  /** Work done in exactly the window's time is estimated as the work of one spacing. */
  lemma OnTimeWindow(first: PlotHeader, prev: PlotHeader)
    requires prev.time - first.time == RETARGET_SMA_WINDOW * TARGET_SPACING && prev.threadWork >= first.threadWork
    ensures WindowWork(first, prev) == (prev.threadWork - first.threadWork) / RETARGET_SMA_WINDOW
  {
    WholePart(prev.threadWork - first.threadWork, 144, 86400);
  }

  /** The longer the window took, and the less work it did, the lower the estimate. */
  lemma SlowWindowsEarnLess(first: PlotHeader, prev: PlotHeader, first': PlotHeader, prev': PlotHeader)
    requires prev.time - first.time <= prev'.time - first'.time
    requires prev.threadWork - first.threadWork >= prev'.threadWork - first'.threadWork >= 0
    ensures WindowWork(first, prev) >= WindowWork(first', prev') >= 0
  {
    var lo, hi := (RETARGET_SMA_WINDOW / 2) * TARGET_SPACING, 2 * RETARGET_SMA_WINDOW * TARGET_SPACING;
    var d, d' := prev.threadWork - first.threadWork, prev'.threadWork - first'.threadWork;
    var span, span' := Clamp(prev.time - first.time, lo, hi), Clamp(prev'.time - first'.time, lo, hi);
    LongerForLess(d' * TARGET_SPACING, d * TARGET_SPACING, span, span');
  }

  lemma LongerForLess(a: nat, a': nat, b: int, b': int)
    requires a <= a' && 0 < b <= b'
    ensures 0 <= a / b' <= a' / b
  {
    QuotientFalls(a, b, b');
    QuotientRises(a, a', b);
    QuotientBounds(a, b', 0);
  }

  /** And the higher the next target. */
  lemma SlowWindowsEase(first: PlotHeader, prev: PlotHeader, first': PlotHeader, prev': PlotHeader)
    requires prev.time - first.time <= prev'.time - first'.time
    requires prev.threadWork - first.threadWork >= prev'.threadWork - first'.threadWork >= 0
    requires WindowWork(first', prev') > 0 && WindowTarget(first, prev).Some? && WindowTarget(first', prev').Some?
    requires WindowWork(first, prev) <= TWO_256
    ensures WindowTarget(first, prev).value <= WindowTarget(first', prev').value
  {
    SlowWindowsEarnLess(first, prev, first', prev');
    var w, w' := WindowWork(first, prev), WindowWork(first', prev');
    hide WindowWork;
    LongerForLess(TWO_256, TWO_256, w', w);
    QuotientBounds(TWO_256, w, 1);
  }

  /** One plot every 600 seconds. */
  predicate Steady(headers: seq<PlotHeader>) {
    forall i :: 0 <= i < |headers| ==> headers[i].time == headers[0].time + TARGET_SPACING * i
  }

  /** What the first retarget makes of the initial target on a steady thread: its interval is one spacing short. */
  const STEADY_TARGET: nat := INITIAL_TARGET * 2015 / 2016

  /**
   * A steady thread keeps its target: up to the first retarget it is the initial one, and from there
   * on, retarget after retarget, the same a 2016th lower.
   */
  lemma {:induction false} SteadyTargets(headers: seq<PlotHeader>, i: nat)
    requires WorkThread(headers) && Steady(headers)
    requires i < |headers| && i <= BITCOIN_CASH_RETARGET_ALGORITHM_HEIGHT
    ensures headers[i].target == if i < RETARGET_INTERVAL then INITIAL_TARGET else STEADY_TARGET
  {
    if i > 0 {
      SteadyTargets(headers, i - 1);
      assert Earned(headers, i);
      var before := headers[..i];
      if i % RETARGET_INTERVAL == 0 {
        assert before[i - 1].time - before[i - 1 - PlotsToGoBack(i)].time == TARGET_SPACING * PlotsToGoBack(i);
      }
    }
  }

  /** The work per plot that a steady thread settles at. */
  const STEADY_WORK: nat := PlotWork(STEADY_TARGET)

  /** Under the revised rule too: a steady thread's plots all stand for the same work, for ever. */
  lemma {:induction false} SteadyWork(headers: seq<PlotHeader>, i: nat)
    requires WorkThread(headers) && Steady(headers) && RETARGET_INTERVAL <= i < |headers|
    ensures PlotWork(headers[i].target) == STEADY_WORK
  {
    if i <= BITCOIN_CASH_RETARGET_ALGORITHM_HEIGHT {
      SteadyTargets(headers, i);
    } else {
      assert Earned(headers, i);
      var before, lo := headers[..i], i - 1 - RETARGET_SMA_WINDOW;
      forall j | lo < j < i ensures PlotWork(headers[j].target) == STEADY_WORK {
        SteadyWork(headers, j);
      }
      TargetsStayInRange(headers, i);
      SteadySum(headers, lo, i - 1);
      forall j | lo < j <= i - 1 ensures Worked(headers, j) {
        assert Earned(headers, j);
      }
      WorkAddsUp(headers, lo, i - 1);
      assert before[lo] == headers[lo] && before[i - 1] == headers[i - 1];
      SteadyWindow(headers[lo], headers[i - 1]);
    }
  }

  lemma {:induction false} SteadySum(headers: seq<PlotHeader>, lo: nat, i: nat)
    requires lo <= i < |headers| && forall j :: lo < j <= i ==> PlotWork(headers[j].target) == STEADY_WORK
    ensures WorkBetween(headers, lo, i) == (i - lo) * STEADY_WORK
  {
    hide PlotWork, STEADY_WORK;
    if lo < i {
      SteadySum(headers, lo, i - 1);
      OneMore(i - 1 - lo, STEADY_WORK);
    }
  }

  lemma OneMore(n: int, x: int)
    ensures n * x + x == (n + 1) * x
  {
  }

  lemma SteadyWindow(first: PlotHeader, prev: PlotHeader)
    requires prev.time - first.time == RETARGET_SMA_WINDOW * TARGET_SPACING
    requires prev.threadWork == first.threadWork + RETARGET_SMA_WINDOW * STEADY_WORK
    ensures WindowTarget(first, prev).Some? && PlotWork(WindowTarget(first, prev).value) == STEADY_WORK
  {
    SteadyNumbers();
    OnTimeWindow(first, prev);
    WindowTargetEarnsItsEstimate(first, prev);
  }

  lemma SteadyNumbers()
    ensures 0 < STEADY_WORK <= 0x1_0000_0000_0000_0000_0000_0000_0000_0000
    ensures TWO_256 / STEADY_WORK - 1 <= INITIAL_TARGET
  {
    var t := 0xffde_7e18_6186_1861_8618_6186_1861_8618_6186_1861_8618_6186_1861_8618;
    assert STEADY_TARGET == t by {
      QuotientBounds(INITIAL_TARGET * 2015, 2016, t);
      QuotientBounds(INITIAL_TARGET * 2015, 2016, t + 1);
    }
    QuotientBounds(TWO_256, t + 1, 4297164362);
    QuotientBounds(TWO_256, t + 1, 4297164363);
    QuotientBounds(TWO_256, 4297164362, INITIAL_TARGET + 2);
  }

  predicate TargetInRange(target: nat) {
    71 <= target <= INITIAL_TARGET
  }

  /** Each plot adds at least two units while targets are in range. */
  lemma {:induction false} WorkGrows(headers: seq<PlotHeader>, i: nat, j: nat)
    requires WorkThread(headers) && i <= j < |headers|
    requires forall k :: 0 <= k <= j ==> TargetInRange(headers[k].target)
    ensures headers[j].threadWork >= headers[i].threadWork + 2 * (j - i)
    decreases j - i
  {
    if i < j {
      WorkGrows(headers, i, j - 1);
      assert Earned(headers, j);
      QuotientBounds(TWO_256, headers[j].target + 1, 2);
    }
  }

  lemma FloorInRange(k: nat)
    requires k <= BITCOIN_CASH_RETARGET_ALGORITHM_HEIGHT / RETARGET_INTERVAL
    ensures TargetInRange(Floor(k))
  {
    FloorFalls(0, k);
    FloorFalls(k, 14);
    assert Floor(14) == 0xffff * 0x1_0000_0000_0000_0000_0000_0000_0000_0000_0000_0000_0000 * 16 by {
      FloorTable();
    }
  }

  lemma FloorTable()
    ensures Floor(14) == 0xffff * 0x1_0000_0000_0000_0000_0000_0000_0000_0000_0000_0000_0000 * 16
  {
    assert Floor(4) == INITIAL_TARGET / 256;
    assert Floor(8) == Floor(4) / 256;
    assert Floor(12) == Floor(8) / 256;
  }

  /** Every target on a thread lies in range, whichever rule set it. */
  lemma {:induction false} TargetsStayInRange(headers: seq<PlotHeader>, n: nat)
    requires WorkThread(headers) && n <= |headers|
    ensures forall i :: 0 <= i < n ==> TargetInRange(headers[i].target)
    ensures forall i :: 0 <= i < n && i <= BITCOIN_CASH_RETARGET_ALGORITHM_HEIGHT ==>
              headers[i].target >= Floor(i / RETARGET_INTERVAL)
  {
    if n > 0 {
      TargetsStayInRange(headers, n - 1);
      if n > 1 {
        NextTargetInRange(headers, n - 1);
      }
    }
  }

  lemma NextTargetInRange(headers: seq<PlotHeader>, i: nat)
    requires WorkThread(headers) && 1 <= i < |headers|
    requires forall k :: 0 <= k < i ==> TargetInRange(headers[k].target)
    requires i - 1 <= BITCOIN_CASH_RETARGET_ALGORITHM_HEIGHT ==>
               headers[i - 1].target >= Floor((i - 1) / RETARGET_INTERVAL)
    ensures TargetInRange(headers[i].target)
    ensures i <= BITCOIN_CASH_RETARGET_ALGORITHM_HEIGHT ==> headers[i].target >= Floor(i / RETARGET_INTERVAL)
  {
    assert Earned(headers, i);
    var before, prev := headers[..i], headers[i - 1];
    if i - 1 >= BITCOIN_CASH_RETARGET_ALGORITHM_HEIGHT {
      WorkGrows(headers, i - 1 - RETARGET_SMA_WINDOW, i - 1);
      assert Earned(headers, i - 1);
      WindowStaysInRange(headers[i - 1 - RETARGET_SMA_WINDOW], prev);
    } else {
      FloorInRange(i / RETARGET_INTERVAL);
      if i % RETARGET_INTERVAL == 0 {
        RetargetedInRange(prev.target, before[i - 1 - PlotsToGoBack(i)].time, prev.time);
        assert (i - 1) / RETARGET_INTERVAL + 1 == i / RETARGET_INTERVAL;
        QuotientRises(Floor((i - 1) / RETARGET_INTERVAL), prev.target, 4);
        FloorFalls(0, i / RETARGET_INTERVAL);
      } else {
        assert (i - 1) / RETARGET_INTERVAL == i / RETARGET_INTERVAL;
      }
    }
  }

  /** The windowed rule always has an answer on a thread: it never divides by zero. */
  lemma TargetAlwaysDefined(headers: seq<PlotHeader>)
    requires WorkThread(headers)
    ensures ThreadTarget(headers).Some? && TargetInRange(ThreadTarget(headers).value)
  {
    var n := |headers|;
    TargetsStayInRange(headers, n);
    if n - 1 >= BITCOIN_CASH_RETARGET_ALGORITHM_HEIGHT {
      WorkGrows(headers, n - 1 - RETARGET_SMA_WINDOW, n - 1);
      assert Earned(headers, n - 1);
      WindowStaysInRange(headers[n - 1 - RETARGET_SMA_WINDOW], headers[n - 1]);
    } else {
      FloorInRange(n / RETARGET_INTERVAL);
      if n % RETARGET_INTERVAL == 0 {
        var prev := headers[n - 1];
        RetargetedInRange(prev.target, headers[n - 1 - PlotsToGoBack(n)].time, prev.time);
        assert (n - 1) / RETARGET_INTERVAL + 1 == n / RETARGET_INTERVAL;
        QuotientRises(Floor((n - 1) / RETARGET_INTERVAL), prev.target, 4);
      }
    }
  }

  // ---------- median timestamp ----------

  function Insert(x: int, s: seq<int>): seq<int> {
    if s == [] || x <= s[0] then [x] + s else [s[0]] + Insert(x, s[1..])
  }

  /** What the library's sort leaves in the slice. */
  function Sort(s: seq<int>): (sorted: seq<int>)
    ensures |sorted| == |s|
  {
    if s == [] then [] else InsertLength(s[0], Sort(s[1..])); Insert(s[0], Sort(s[1..]))
  }

  lemma InsertLength(x: int, s: seq<int>)
    ensures |Insert(x, s)| == |s| + 1
  {
  }

  predicate Ascending(s: seq<int>) {
    forall i, j :: 0 <= i < j < |s| ==> s[i] <= s[j]
  }

  /** How many timestamps lie below m. */
  function CountBelow(s: seq<int>, m: int): nat {
    if s == [] then 0 else (if s[0] < m then 1 else 0) + CountBelow(s[1..], m)
  }

  lemma {:induction false} InsertSorts(x: int, s: seq<int>)
    requires Ascending(s)
    ensures Ascending(Insert(x, s)) && (s != [] && s[0] < x ==> Insert(x, s)[0] == s[0])
    ensures forall y :: y in Insert(x, s) <==> y == x || y in s
  {
    if s != [] && x > s[0] {
      var rest := s[1..];
      assert forall i :: 0 <= i < |rest| ==> rest[i] == s[i + 1];
      assert s == [s[0]] + rest;
      InsertSorts(x, rest);
      var r := Insert(x, rest);
      forall i, j | 0 <= i < j < |[s[0]] + r| ensures ([s[0]] + r)[i] <= ([s[0]] + r)[j] {
        assert r[j - 1] in r;
      }
    }
  }

  lemma {:induction false} InsertCounts(x: int, s: seq<int>, m: int)
    ensures CountBelow(Insert(x, s), m) == CountBelow(s, m) + if x < m then 1 else 0
  {
    if s == [] || x <= s[0] {
      assert ([x] + s)[1..] == s;
    } else {
      InsertCounts(x, s[1..], m);
      assert ([s[0]] + Insert(x, s[1..]))[1..] == Insert(x, s[1..]);
    }
  }

  lemma {:induction false} SortSorts(s: seq<int>, m: int)
    ensures Ascending(Sort(s)) && CountBelow(Sort(s), m) == CountBelow(s, m)
  {
    if s != [] {
      SortSorts(s[1..], m);
      InsertSorts(s[0], Sort(s[1..]));
      InsertCounts(s[0], Sort(s[1..]), m);
    }
  }

  lemma {:induction false} AscendingCounts(s: seq<int>, k: nat, m: int)
    requires Ascending(s) && k < |s|
    ensures s[k] >= m <==> CountBelow(s, m) <= k
  {
    var rest := s[1..];
    assert forall i :: 0 <= i < |rest| ==> rest[i] == s[i + 1];
    if s[0] >= m {
      NoneBelow(s, m);
    } else if k > 0 {
      AscendingCounts(rest, k - 1, m);
    }
  }

  lemma {:induction false} NoneBelow(s: seq<int>, m: int)
    requires forall i :: 0 <= i < |s| ==> s[i] >= m
    ensures CountBelow(s, m) == 0
  {
    if s != [] {
      NoneBelow(s[1..], m);
    }
  }

  /** The k-th smallest element is at least m exactly when at most k elements are below m. */
  lemma SortedAtLeast(s: seq<int>, k: nat, m: int)
    requires k < |s|
    ensures Sort(s)[k] >= m <==> CountBelow(s, m) <= k
  {
    SortSorts(s, m);
    AscendingCounts(Sort(s), k, m);
  }

  function MedianOf(times: seq<int>): int
    requires times != []
  {
    Sort(times)[|times| / 2]
  }

  /** How many timestamps lie above m. */
  function CountAbove(s: seq<int>, m: int): nat {
    if s == [] then 0 else (if s[0] > m then 1 else 0) + CountAbove(s[1..], m)
  }

  lemma {:induction false} BelowOrAbove(s: seq<int>, m: int)
    ensures CountBelow(s, m + 1) + CountAbove(s, m) == |s|
  {
    if s != [] {
      BelowOrAbove(s[1..], m);
    }
  }

  lemma {:induction false} SortKeeps(s: seq<int>)
    ensures Ascending(Sort(s)) && forall x :: x in Sort(s) <==> x in s
  {
    if s != [] {
      SortKeeps(s[1..]);
      InsertSorts(s[0], Sort(s[1..]));
      assert s == [s[0]] + s[1..];
    }
  }

  /** The median is one of the times, with at most half of them below it and fewer than half above. */
  lemma MedianIsInTheMiddle(times: seq<int>)
    requires times != []
    ensures var m := MedianOf(times);
      && m in times
      && CountBelow(times, m) <= |times| / 2
      && 2 * CountAbove(times, m) < |times|
  {
    var k, m := |times| / 2, MedianOf(times);
    SortKeeps(times);
    SortedAtLeast(times, k, m);
    SortedAtLeast(times, k, m + 1);
    BelowOrAbove(times, m);
    hide Sort, CountBelow, CountAbove, Ascending;
    assert Sort(times)[k] in Sort(times);
  }

  /** The last 11 times of a thread (fewer near genesis), the latest first. */
  function LastTimes(headers: seq<PlotHeader>): seq<int> {
    var n := |headers|;
    var count := if n < NUM_PLOTS_FOR_MEDIAN_TIMESTAMP then n else NUM_PLOTS_FOR_MEDIAN_TIMESTAMP;
    seq(count, i requires 0 <= i < count => headers[n - 1 - i].time)
  }

  function MedianTimestamp(headers: seq<PlotHeader>): int
    requires headers != []
  {
    MedianOf(LastTimes(headers))
  }

  lemma {:induction false} CountBelowFront(s: seq<int>, m: int)
    requires s != []
    ensures CountBelow(s[..|s| - 1], m) <= CountBelow(s, m)
  {
    if |s| > 1 {
      CountBelowFront(s[1..], m);
      assert s[..|s| - 1][1..] == s[1..][..|s| - 2];
    }
  }

  /**
   * A plot timed after its parent's median never lowers the median,
   * while the window still grows and when it slides.
   */
  lemma MedianNeverFalls(headers: seq<PlotHeader>, header: PlotHeader)
    requires headers != [] && header.time > MedianTimestamp(headers)
    ensures MedianTimestamp(headers + [header]) >= MedianTimestamp(headers)
  {
    var m, times, times' := MedianTimestamp(headers), LastTimes(headers), LastTimes(headers + [header]);
    SortedAtLeast(times, |times| / 2, m);
    SortedAtLeast(times', |times'| / 2, m);
    if |headers| < NUM_PLOTS_FOR_MEDIAN_TIMESTAMP {
      assert times' == [header.time] + times;
      assert times'[1..] == times;
    } else {
      assert times'[1..] == times[..|times| - 1];
      CountBelowFront(times, m);
    }
  }
}
