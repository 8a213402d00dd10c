/** Representations, plots and headers: the values every other part of the project talks about. */
module Plots {

  datatype Option<+T> = None | Some(value: T)

  type byte = b: int | 0 <= b < 256

  /** A representation or plot public key: 32 bytes once the shape checks have passed. */
  type PubKey = seq<byte>

  const TWO_256: nat := 0x1_0000_0000_0000_0000_0000_0000_0000_0000_0000_0000_0000_0000_0000_0000_0000_0000

  /** 32 bytes read as a big-endian number: a header hash, a target or an amount of work. */
  type PlotID = n: int | 0 <= n < TWO_256

  const PLOTROOT_MATURITY := 100
  const PLOTS_UNTIL_NEW_SERIES := 1008
  const MAX_NUMBER := 0x1F_FFFF_FFFF_FFFF
  const MAX_REPRESENTATIONS_PER_PLOT := 0x7FFF_FFFF
  const MAX_MEMO_LENGTH := 200
  const PUBLIC_KEY_SIZE := 32
  const SIGNATURE_SIZE := 64

  function Pow2(n: nat): nat {
    if n == 0 then 1 else 2 * Pow2(n - 1)
  }

  // ---------- representations ----------

  /** byKey is None exactly when the source's By is nil: the representation is a plotroot. */
  datatype Representation = Representation(
    time: int, nonce: int, byKey: Option<PubKey>, forKey: PubKey, memo: seq<byte>,
    matures: int, expires: int, series: int, signature: seq<byte>)
  {
    predicate IsPlotroot() {
      byKey.None?
    }

    predicate IsMature(height: int) {
      matures == 0 || matures >= height
    }

    predicate IsExpired(height: int) {
      expires != 0 && expires < height
    }

    /** The content hash: everything but the signature, so the hash is injective on contents. */
    function Id(): RepresentationID {
      RepresentationID(this.(signature := []))
    }

    /** The keys whose history the representation belongs to. */
    function Parties(): set<PubKey> {
      {forKey} + (if byKey.Some? then {byKey.value} else {})
    }
  }

  datatype RepresentationID = RepresentationID(content: Representation)

  function SeriesAt(height: int): int {
    height / PLOTS_UNTIL_NEW_SERIES + 1
  }

  /** Plotroots start a series on time; other representations have one series of grace. */
  predicate CheckRepresentationSeries(tx: Representation, height: int)
  {
    var high := SeriesAt(height);
    if tx.IsPlotroot() then
      tx.series == high
    else
      var low := if high - 1 == 0 then 1 else high - 1;
      low <= tx.series <= high
  }

  /** What a representation must satisfy to be included at `height`, besides funds. */
  predicate IncludableAt(tx: Representation, height: int)
  {
    CheckRepresentationSeries(tx, height) && tx.IsMature(height) && !tx.IsExpired(height)
  }

  // ---------- plots ----------

  /** hashListRoot is the list of representation IDs itself: the hash list is injective on it. */
  datatype PlotHeader = PlotHeader(
    previous: PlotID, hashListRoot: seq<RepresentationID>, time: int, target: PlotID,
    threadWork: PlotID, nonce: int, height: int, representationCount: int)

  datatype Plot = Plot(header: PlotHeader, reps: seq<Representation>)

  function Ids(reps: seq<Representation>): (ids: seq<RepresentationID>)
    ensures |ids| == |reps|
    ensures forall i :: 0 <= i < |reps| ==> ids[i] == reps[i].Id()
  {
    seq(|reps|, i requires 0 <= i < |reps| => reps[i].Id())
  }

  predicate DistinctIds(reps: seq<Representation>) {
    forall i, j :: 0 <= i < j < |reps| ==> reps[i].Id() != reps[j].Id()
  }

  /** A plot together with the ID it is stored under. */
  datatype Entry = Entry(id: PlotID, plot: Plot)

  /** One plotroot, first, then representations that are not plotroots and do not pay their sender. */
  predicate WellShaped(plot: Plot) {
    && |plot.reps| > 0
    && plot.reps[0].IsPlotroot()
    && (forall i :: 1 <= i < |plot.reps| ==> !plot.reps[i].IsPlotroot())
    && (forall i :: 0 <= i < |plot.reps| ==> plot.reps[i].byKey != Some(plot.reps[i].forKey))
    && DistinctIds(plot.reps)
  }

  predicate SeriesRight(plot: Plot) {
    forall i :: 0 <= i < |plot.reps| ==> CheckRepresentationSeries(plot.reps[i], plot.header.height)
  }

  /**
   * What stays fixed during a run: the header hash, signature verification, text validation,
   * the descendant guard, the genesis ID, and whether the ledger prunes.
   */
  datatype Rules = Rules(
    hash: PlotHeader -> PlotID,
    verify: Representation -> bool,
    validText: seq<byte> -> bool,
    guard: Representation -> bool,
    genesisID: PlotID,
    prune: bool)

  /** The checks on a representation that need no context. */
  predicate CheckRepresentation(rules: Rules, tx: Representation) {
    && 0 <= tx.time <= MAX_NUMBER
    && tx.nonce >= 0
    && (if tx.IsPlotroot() then
          tx.matures <= 0 && tx.expires <= 0 && tx.signature == []
        else
          |tx.byKey.value| == PUBLIC_KEY_SIZE && |tx.signature| == SIGNATURE_SIZE)
    && |tx.forKey| == PUBLIC_KEY_SIZE
    && tx.byKey != Some(tx.forKey)
    && rules.validText(tx.memo)
    && |tx.memo| <= MAX_MEMO_LENGTH
    && 0 <= tx.matures <= MAX_NUMBER
    && 0 <= tx.expires <= MAX_NUMBER
    && 0 < tx.series <= MAX_NUMBER
  }

  /** What a plot or the queue may hold besides plotroots: in shape and signed by the sender. */
  predicate Checked(rules: Rules, tx: Representation) {
    CheckRepresentation(rules, tx) && rules.verify(tx)
  }

  // ---------- storage ----------

  /** A stored plot and the time it was stored at. */
  datatype Stored = Stored(plot: Plot, when: int)

  type Plots = map<PlotID, Stored>
}
