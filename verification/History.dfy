/** Reading a key's history: range scans, paging through them, and an imbalance recomputed from them. */
module History {
  import opened Plots
  import opened Balances
  import opened LedgerSpec
  import opened LedgerProofs
  import opened LedgerDisk
  import opened HistoryKeys
  import opened Tree
  import opened ThreadState

  /** Keys of 32 bytes, heights and indices that fit their types: what the shape checks let through. */
  ghost predicate AllStorable(history: set<HistoryKey>) {
    forall e :: e in history ==> |e.key| == PUBLIC_KEY_SIZE && Storable(e.height, e.index)
  }

  predicate Precedes(p: Position, q: Position) {
    Before(p.height, p.index, q.height, q.index)
  }

  /** A public key's entries from a place up to and including a height, each once, in order. */
  ghost predicate Listing(s: seq<Position>, history: set<HistoryKey>, pubKey: PubKey, from: Position, endHeight: int) {
    && InOrder(s)
    && (forall p :: p in s <==> Listed(history, pubKey, from, endHeight, p))
  }

  predicate Listed(history: set<HistoryKey>, pubKey: PubKey, from: Position, endHeight: int, p: Position) {
    HistoryKey(pubKey, p.height, p.index) in history && !Precedes(p, from) && p.height <= endHeight
  }

  ghost predicate InOrder(s: seq<Position>) {
    forall i, j :: 0 <= i < j < |s| ==> Precedes(s[i], s[j])
  }

  lemma FirstIsLeast(s: seq<Position>, t: seq<Position>)
    requires s != [] && t != [] && InOrder(s) && InOrder(t) && s[0] in t && t[0] in s
    ensures s[0] == t[0]
  {
    var j :| 0 <= j < |t| && t[j] == s[0];
    var i :| 0 <= i < |s| && s[i] == t[0];
  }

  lemma TailMembers(s: seq<Position>, p: Position)
    requires s != [] && InOrder(s)
    ensures p in s[1..] <==> p in s && p != s[0]
    ensures InOrder(s[1..])
  {
    if p in s[1..] {
      var i :| 0 <= i < |s[1..]| && s[1..][i] == p;
      assert s[i + 1] == p && Precedes(s[0], s[i + 1]);
    }
    if p in s && p != s[0] {
      var i :| 0 <= i < |s| && s[i] == p;
      assert s[1..][i - 1] == p;
    }
  }

  lemma {:induction false} ListingIsUnique(s: seq<Position>, t: seq<Position>)
    requires InOrder(s) && InOrder(t)
    requires forall p :: p in s <==> p in t
    ensures s == t
  {
    assert forall i :: 0 <= i < |t| ==> t[i] in s;
    assert forall i :: 0 <= i < |s| ==> s[i] in t;
    if s != [] && t != [] {
      hide InOrder;
      FirstIsLeast(s, t);
      TailMembers(s, s[0]);
      TailMembers(t, t[0]);
      forall p ensures p in s[1..] <==> p in t[1..] {
        TailMembers(s, p);
        TailMembers(t, p);
      }
      ListingIsUnique(s[1..], t[1..]);
      assert s == [s[0]] + s[1..] && t == [t[0]] + t[1..];
    }
  }

  /** What is left of a listing after its first n entries is the listing from right after the n-th. */
  lemma RestIsListing(s: seq<Position>, history: set<HistoryKey>, pubKey: PubKey, from: Position, endHeight: int,
                      n: nat)
    requires Listing(s, history, pubKey, from, endHeight) && 0 < n <= |s|
    ensures Listing(s[n..], history, pubKey, Position(s[n - 1].height, s[n - 1].index + 1), endHeight)
  {
    var from' := Position(s[n - 1].height, s[n - 1].index + 1);
    assert forall i :: 0 <= i < n - 1 ==> Precedes(s[i], s[n - 1]);
    forall p ensures p in s[n..] <==> Listed(history, pubKey, from', endHeight, p) {
      assert Listed(history, pubKey, from, endHeight, s[n - 1]) by {
        assert s[n - 1] in s;
      }
      if Listed(history, pubKey, from', endHeight, p) {
        assert Listed(history, pubKey, from, endHeight, p);
        var i :| 0 <= i < |s| && s[i] == p;
        assert s[n..][i - n] == p;
      }
      if p in s[n..] {
        var i :| 0 <= i < |s[n..]| && s[n..][i] == p;
        assert s[n + i] == p && Precedes(s[n - 1], s[n + i]) && p in s;
      }
    }
  }

  // ---------- the store's iterator ----------

  /** The stored keys of a range, in the store's order. */
  ghost predicate IsRange(keys: seq<Bytes>, history: set<HistoryKey>, start: Bytes, limit: Bytes) {
    && (forall i, j :: 0 <= i < j < |keys| ==> Less(keys[i], keys[j]))
    && (forall k :: k in keys <==> exists e :: e in history && KeyOf(e) == k && HistoryKeys.Within(k, start, limit))
  }

  method Least(keys: set<Bytes>) returns (least: Bytes)
    requires keys != {}
    ensures least in keys && forall k :: k in keys && k != least ==> Less(least, k)
  {
    least :| least in keys;
    var rest := keys - {least};
    while rest != {}
      invariant rest < keys && least in keys && least !in rest
      invariant forall k :: k in keys && k !in rest && k != least ==> Less(least, k)
      decreases rest
    {
      var k :| k in rest;
      rest := rest - {k};
      LessIsTotal(k, least);
      if Less(k, least) {
        forall x | x in keys && x !in rest && x != k ensures Less(k, x) {
          if x != least {
            LessIsTransitive(k, least, x);
          }
        }
        least := k;
      }
    }
  }

  method NewIterator(history: set<HistoryKey>, start: Bytes, limit: Bytes) returns (keys: seq<Bytes>)
    ensures IsRange(keys, history, start, limit)
  {
    var rest := set e | e in history && HistoryKeys.Within(KeyOf(e), start, limit) :: KeyOf(e);
    ghost var all := rest;
    keys := [];
    while rest != {}
      invariant rest <= all && forall k :: k in keys <==> k in all && k !in rest
      invariant forall i, j :: 0 <= i < j < |keys| ==> Less(keys[i], keys[j])
      invariant forall i, k :: 0 <= i < |keys| && k in rest ==> Less(keys[i], k)
      decreases rest
    {
      var k := Least(rest);
      keys := keys + [k];
      rest := rest - {k};
    }
  }

  ghost function PlaceOf(k: Bytes): Position {
    var e := DecodeKey(k);
    if e.Some? then Position(e.value.height, e.value.index) else Position(0, 0)
  }

  ghost function Places(keys: seq<Bytes>): (s: seq<Position>)
    ensures |s| == |keys| && forall i :: 0 <= i < |s| ==> s[i] == PlaceOf(keys[i])
  {
    seq(|keys|, i requires 0 <= i < |keys| => PlaceOf(keys[i]))
  }

  /** Which entries a byte range is about. */
  ghost predicate RangeIs(history: set<HistoryKey>, start: Bytes, limit: Bytes, pubKey: PubKey, from: Position,
                          endHeight: int) {
    forall e :: e in history ==>
      (HistoryKeys.Within(KeyOf(e), start, limit) <==>
        e.key == pubKey && !Precedes(Position(e.height, e.index), from) && e.height <= endHeight)
  }

  lemma KeyInRange(keys: seq<Bytes>, history: set<HistoryKey>, start: Bytes, limit: Bytes, pubKey: PubKey,
                   from: Position,
                   endHeight: int, i: nat)
    requires IsRange(keys, history, start, limit) && AllStorable(history) && i < |keys|
    requires RangeIs(history, start, limit, pubKey, from, endHeight)
    ensures var p := PlaceOf(keys[i]);
      && DecodeKey(keys[i]) == Some(HistoryKey(pubKey, p.height, p.index)) && Storable(p.height, p.index)
      && keys[i] == KeyOf(HistoryKey(pubKey, p.height, p.index)) && Listed(history, pubKey, from, endHeight, p)
  {
    assert keys[i] in keys;
    var e :| e in history && KeyOf(e) == keys[i] && HistoryKeys.Within(keys[i], start, limit);
    KeyReadsBack(e);
  }

  /** The keys of a range decode to a listing. */
  lemma RangeIsListing(keys: seq<Bytes>, history: set<HistoryKey>, start: Bytes, limit: Bytes, pubKey: PubKey,
                       from: Position,
                       endHeight: int)
    requires IsRange(keys, history, start, limit) && AllStorable(history)
    requires RangeIs(history, start, limit, pubKey, from, endHeight)
    ensures Listing(Places(keys), history, pubKey, from, endHeight)
  {
    hide KeyOf, DecodeKey, PlaceOf, HistoryKeys.Within, Less;
    var s := Places(keys);
    forall i, j | 0 <= i < j < |s| ensures Precedes(s[i], s[j]) {
      KeyInRange(keys, history, start, limit, pubKey, from, endHeight, i);
      KeyInRange(keys, history, start, limit, pubKey, from, endHeight, j);
      KeyOrder(pubKey, s[i].height, s[i].index, s[j].height, s[j].index);
    }
    forall p ensures p in s <==> Listed(history, pubKey, from, endHeight, p) {
      if p in s {
        var i :| 0 <= i < |s| && s[i] == p;
        KeyInRange(keys, history, start, limit, pubKey, from, endHeight, i);
      }
      if Listed(history, pubKey, from, endHeight, p) {
        var e := HistoryKey(pubKey, p.height, p.index);
        assert KeyOf(e) in keys;
        var i :| 0 <= i < |keys| && keys[i] == KeyOf(e);
        KeyInRange(keys, history, start, limit, pubKey, from, endHeight, i);
        KeyOfDecodes(e, p);
      }
    }
  }

  lemma KeyOfDecodes(e: HistoryKey, p: Position)
    requires |e.key| == PUBLIC_KEY_SIZE && Storable(e.height, e.index) && p == Position(e.height, e.index)
    ensures PlaceOf(KeyOf(e)) == p
  {
    KeyReadsBack(e);
  }

  // ---------- scanning ----------

  datatype Page = Page(ids: seq<PlotID>, indices: seq<int>, lastHeight: int, lastIndex: int)

  datatype HistoryError = NoPlotAtHeight(height: int) | NoRepresentation(at: Position) | NotInvolved(at: Position)

  /** The first n places of a listing as the scan returns them. */
  ghost predicate PageShows(page: Page, heights: map<int, PlotID>, all: seq<Position>, n: nat)
    requires n <= |all|
  {
    && |page.ids| == |page.indices| == n
    && (forall i :: 0 <= i < n ==>
          all[i].height in heights && page.ids[i] == heights[all[i].height] && page.indices[i] == all[i].index)
    && (n > 0 ==> page.lastHeight == all[n - 1].height && page.lastIndex == all[n - 1].index)
  }

  function Cut(limit: int, length: nat): (n: nat)
    ensures n <= length
  {
    if 0 < limit < length then limit else length
  }

  /** Where a scan starts, and the last height it reaches: the bytes of its keys know no sign. */
  function ScanFrom(startHeight: int, startIndex: int): Position {
    Position(Unsigned64(startHeight), Unsigned32(startIndex))
  }

  function ScanTo(endHeight: int): int {
    Unsigned64(endHeight + 1) - 1
  }

  /** What a scan gives back of a listing, of which it reads the first n places. */
  ghost predicate Scanned(r: Result<Page, HistoryError>, heights: map<int, PlotID>, all: seq<Position>, n: nat)
    requires n <= |all|
  {
    && (r.Ok? <==> forall i :: 0 <= i < n ==> all[i].height in heights)
    && (r.Ok? ==> PageShows(r.value, heights, all, n))
  }

  /** The entries of a key in a range of heights, going forward; at most `limit` if that is positive. */
  method RangeForward(ledger: LedgerDisk, pubKey: PubKey, startHeight: int, endHeight: int, startIndex: int, limit: int)
    returns (r: Result<Page, HistoryError>)
    requires AllStorable(ledger.db.history) && |pubKey| == PUBLIC_KEY_SIZE
    ensures exists all: seq<Position> ::
      && Listing(all, ledger.db.history, pubKey, ScanFrom(startHeight, startIndex), ScanTo(endHeight))
      && Scanned(r, ledger.db.heights, all, Cut(limit, |all|))
  {
    hide Listing, IsRange, KeyOf, DecodeKey, PlaceOf, IndexKey, HistoryKeys.Within;
    ghost var history, from, to := ledger.db.history, ScanFrom(startHeight, startIndex), ScanTo(endHeight);
    var startKey := IndexKey(pubKey, Some(startHeight), Some(startIndex));
    var endKey := IndexKey(pubKey, Some(endHeight + 1), None);
    var iter := NewIterator(ledger.db.history, startKey, endKey);
    ScanRange(history, pubKey, startHeight, startIndex, endHeight);
    RangeIsListing(iter, history, startKey, endKey, pubKey, from, to);
    ghost var all := Places(iter);
    var ids, indices, lastHeight, lastIndex := [], [], 0, 0;
    for i := 0 to |iter|
      invariant i <= Cut(limit, |all|) && (limit > 0 ==> i < limit)
      invariant PageShows(Page(ids, indices, lastHeight, lastIndex), ledger.db.heights, all, i)
    {
      KeyInRange(iter, history, startKey, endKey, pubKey, from, to, i);
      var e := DecodeKey(iter[i]).value;
      lastHeight, lastIndex := e.height, e.index;
      var id := ledger.GetPlotIDForHeight(lastHeight);
      if id.None? {
        r := Err(NoPlotAtHeight(lastHeight));
        assert Scanned(r, ledger.db.heights, all, Cut(limit, |all|));
        return;
      }
      ids, indices := ids + [id.value], indices + [lastIndex];
      if limit != 0 && |indices| == limit {
        break;
      }
    }
    r := Ok(Page(ids, indices, lastHeight, lastIndex));
    assert Scanned(r, ledger.db.heights, all, Cut(limit, |all|));
  }

  lemma ScanRange(history: set<HistoryKey>, pubKey: PubKey, startHeight: int, startIndex: int, endHeight: int)
    requires AllStorable(history) && |pubKey| == PUBLIC_KEY_SIZE
    ensures RangeIs(history, IndexKey(pubKey, Some(startHeight), Some(startIndex)),
                    IndexKey(pubKey, Some(endHeight + 1), None),
                    pubKey, ScanFrom(startHeight, startIndex), ScanTo(endHeight))
  {
    hide HistoryKeys.Within, KeyOf, IndexKey, Unsigned64, Unsigned32;
    forall e | e in history
      ensures HistoryKeys.Within(KeyOf(e), IndexKey(pubKey, Some(startHeight), Some(startIndex)),
                                 IndexKey(pubKey, Some(endHeight + 1), None)) <==>
                && e.key == pubKey && e.height <= ScanTo(endHeight)
                && !Precedes(Position(e.height, e.index), ScanFrom(startHeight, startIndex))
    {
      RangeHolds(e, pubKey, startHeight, startIndex, endHeight + 1);
    }
  }

  lemma WholeRange(history: set<HistoryKey>, pubKey: PubKey, endHeight: int)
    requires AllStorable(history) && |pubKey| == PUBLIC_KEY_SIZE
    ensures RangeIs(history, IndexKey(pubKey, None, None), IndexKey(pubKey, Some(endHeight + 1), None),
                    pubKey, Position(0, 0), ScanTo(endHeight))
  {
    hide HistoryKeys.Within, KeyOf, IndexKey, Unsigned64, Unsigned32;
    forall e | e in history
      ensures HistoryKeys.Within(KeyOf(e), IndexKey(pubKey, None, None), IndexKey(pubKey, Some(endHeight + 1), None))
              <==> && e.key == pubKey && e.height <= ScanTo(endHeight)
                   && !Precedes(Position(e.height, e.index), Position(0, 0))
    {
      OpenRangeHolds(e, pubKey, endHeight + 1);
    }
  }

  /**
   * Reads a key's history page by page, each page from right after the last entry of the one before,
   * until a page is not full. Every entry the first page's range holds comes out exactly once and in order,
   * whatever the page size, and the next page never starts above the end.
   */
  method ReadAll(ledger: LedgerDisk, pubKey: PubKey, startHeight: int, endHeight: int, limit: nat)
    returns (ids: seq<PlotID>, indices: seq<int>, complete: bool)
    requires AllStorable(ledger.db.history) && |pubKey| == PUBLIC_KEY_SIZE && limit > 0
    requires InRange64(startHeight) && InRange64(endHeight) && startHeight <= endHeight
    ensures exists all: seq<Position> ::
      && Listing(all, ledger.db.history, pubKey, ScanFrom(startHeight, 0), ScanTo(endHeight))
      && Found(ids, indices, ledger.db.heights, all) && (complete ==> |ids| == |all|)
      && (complete <==> forall i :: 0 <= i < |all| ==> all[i].height in ledger.db.heights)
  {
    hide *;
    ghost var history, to, heights := ledger.db.history, ScanTo(endHeight), ledger.db.heights;
    ids, indices := [], [];
    var height, index := startHeight, 0;
    var page := RangeForward(ledger, pubKey, height, endHeight, index, limit);
    ghost var rest: seq<Position> :| Listing(rest, history, pubKey, ScanFrom(height, index), to)
                                     && Scanned(page, heights, rest, Cut(limit, |rest|));
    ghost var all := rest;
    FoundNothing(heights, all);
    FirstPage(all, history, pubKey, startHeight, endHeight);
    while page.Ok? && |page.value.ids| == limit
      invariant Listing(rest, history, pubKey, ScanFrom(height, index), to) && height <= endHeight
      invariant rest != [] ==> endHeight >= 0
      invariant Scanned(page, heights, rest, Cut(limit, |rest|))
      invariant Found(ids, indices, heights, all) && |ids| <= |all| && rest == all[|ids|..]
      decreases |rest|
    {
      ghost var before := rest;
      PageRead(ids, indices, page.value, history, pubKey, ScanFrom(height, index), endHeight, heights, all, limit);
      ids, indices := ids + page.value.ids, indices + page.value.indices;
      height, index := page.value.lastHeight, page.value.lastIndex + 1;
      page := RangeForward(ledger, pubKey, height, endHeight, index, limit);
      rest :| Listing(rest, history, pubKey, ScanFrom(height, index), to)
              && Scanned(page, heights, rest, Cut(limit, |rest|));
      SameListing(rest, before[limit..], history, pubKey, ScanFrom(height, index), to);
    }
    if page.Err? {
      PageMissing(ids, page, heights, all, limit);
      return ids, indices, false;
    }
    LastPage(ids, indices, page.value, heights, all, limit);
    ids, indices := ids + page.value.ids, indices + page.value.indices;
    complete := true;
  }

  lemma FirstPage(all: seq<Position>, history: set<HistoryKey>, pubKey: PubKey, startHeight: int, endHeight: int)
    requires Listing(all, history, pubKey, ScanFrom(startHeight, 0), ScanTo(endHeight)) && AllStorable(history)
    requires InRange64(startHeight) && startHeight <= endHeight
    ensures all != [] ==> endHeight >= 0
    ensures all == all[0..]
  {
    NegativeScan(all, history, pubKey, startHeight, ScanFrom(startHeight, 0), endHeight);
  }

  /** A full page: what is read grows by it, and the next page is due right after its last entry. */
  lemma PageRead(ids: seq<PlotID>, indices: seq<int>, page: Page, history: set<HistoryKey>, pubKey: PubKey,
                 from: Position, endHeight: int, heights: map<int, PlotID>, all: seq<Position>, limit: nat)
    requires Found(ids, indices, heights, all) && |ids| <= |all| && limit > 0 && |page.ids| == limit
    requires var rest := all[|ids|..];
      && Listing(rest, history, pubKey, from, ScanTo(endHeight))
      && Scanned(Result<Page, HistoryError>.Ok(page), heights, rest, Cut(limit, |rest|))
      && (rest != [] ==> endHeight >= 0)
    requires AllStorable(history) && InRange64(endHeight)
    ensures var rest := all[|ids|..];
      && limit <= |rest| && Found(ids + page.ids, indices + page.indices, heights, all)
      && rest[limit..] == all[|ids + page.ids|..] && |ids + page.ids| <= |all|
      && Listing(rest[limit..], history, pubKey, ScanFrom(page.lastHeight, page.lastIndex + 1), ScanTo(endHeight))
      && page.lastHeight <= endHeight
  {
    var rest := all[|ids|..];
    FoundMore(ids, indices, page, heights, all, Cut(limit, |rest|));
    RestIsListing(rest, history, pubKey, from, ScanTo(endHeight), limit);
    LastIsStorable(rest, history, pubKey, from, ScanTo(endHeight), limit);
    NextStart(rest[limit - 1], endHeight);
    hide Found, Listing, AllStorable, ScanFrom, ScanTo;
  }

  lemma PageMissing(ids: seq<PlotID>, page: Result<Page, HistoryError>, heights: map<int, PlotID>, all: seq<Position>,
                    limit: nat)
    requires |ids| <= |all| && page.Err? && Scanned(page, heights, all[|ids|..], Cut(limit, |all[|ids|..]|))
    ensures !forall i :: 0 <= i < |all| ==> all[i].height in heights
  {
    var rest := all[|ids|..];
    var i :| 0 <= i < Cut(limit, |rest|) && rest[i].height !in heights;
    assert all[|ids| + i] == rest[i];
  }

  /** A page that is not full is the last. */
  lemma LastPage(ids: seq<PlotID>, indices: seq<int>, page: Page, heights: map<int, PlotID>, all: seq<Position>,
                 limit: nat)
    requires Found(ids, indices, heights, all) && |ids| <= |all| && limit > 0 && |page.ids| != limit
    requires Scanned(Result<Page, HistoryError>.Ok(page), heights, all[|ids|..], Cut(limit, |all[|ids|..]|))
    ensures Found(ids + page.ids, indices + page.indices, heights, all) && |ids + page.ids| == |all|
    ensures forall i :: 0 <= i < |all| ==> all[i].height in heights
  {
    FoundMore(ids, indices, page, heights, all, Cut(limit, |all[|ids|..]|));
    FoundAll(ids + page.ids, indices + page.indices, heights, all);
  }

  /** Right after a stored entry the scan goes on at the very next place, if the end is not negative. */
  lemma NextStart(last: Position, endHeight: int)
    requires Storable(last.height, last.index) && InRange64(endHeight) && last.height <= ScanTo(endHeight)
    ensures ScanFrom(last.height, last.index + 1) == Position(last.height, last.index + 1)
    ensures endHeight >= 0 ==> last.height <= endHeight
  {
    UnsignedMeans(last.height);
    UnsignedMeans(last.index + 1);
    UnsignedMeans(endHeight + 1);
  }

  /** A scan from a negative height finds nothing. */
  lemma NegativeScan(all: seq<Position>, history: set<HistoryKey>, pubKey: PubKey, startHeight: int, from: Position,
                     endHeight: int)
    requires Listing(all, history, pubKey, from, ScanTo(endHeight)) && AllStorable(history) && InRange64(startHeight)
    ensures startHeight < 0 && from == ScanFrom(startHeight, 0) ==> all == []
  {
    UnsignedMeans(startHeight);
    if all != [] {
      LastIsStorable(all, history, pubKey, from, ScanTo(endHeight), |all|);
    }
  }

  /**
   * What the pages hold is everything stored in the range of heights exactly when the start is not negative,
   * or there is nothing to read.
   */
  lemma PagingIsComplete(history: set<HistoryKey>, pubKey: PubKey, startHeight: int, endHeight: int,
                         seen: seq<Position>, whole: seq<Position>)
    requires AllStorable(history) && InRange64(startHeight) && InRange64(endHeight) && startHeight <= endHeight
    requires Listing(seen, history, pubKey, ScanFrom(startHeight, 0), ScanTo(endHeight))
    requires Listing(whole, history, pubKey, Position(startHeight, 0), endHeight)
    ensures seen == whole <==> startHeight >= 0 || whole == []
  {
    UnsignedMeans(startHeight);
    UnsignedMeans(endHeight + 1);
    if startHeight < 0 {
      NegativeScan(seen, history, pubKey, startHeight, ScanFrom(startHeight, 0), endHeight);
    } else {
      HighestEnd(endHeight);
      SameListing(seen, whole, history, pubKey, Position(startHeight, 0), endHeight);
    }
  }

  lemma HighestEnd(endHeight: int)
    requires 0 <= endHeight <= MAX_INT64
    ensures ScanTo(endHeight) == endHeight
  {
  }

  /**
   * The reward report starts 99 plots below the tip. While the tip is below height 99 it therefore reads
   * nothing, whatever the key has earned.
   */
  lemma EarlyRewardsGoUnseen(history: set<HistoryKey>, pubKey: PubKey, tipHeight: int, seen: seq<Position>)
    requires AllStorable(history) && 0 <= tipHeight < PLOTROOT_MATURITY - 1
    requires Listing(seen, history, pubKey, ScanFrom(tipHeight - PLOTROOT_MATURITY + 1, 0), ScanTo(tipHeight + 1))
    ensures seen == []
  {
    NegativeScan(seen, history, pubKey, tipHeight - PLOTROOT_MATURITY + 1,
                 ScanFrom(tipHeight - PLOTROOT_MATURITY + 1, 0), tipHeight + 1);
  }

  /** For one: right after genesis its plotroot is in the range of heights, and the report does not show it. */
  lemma GenesisRewardGoesUnseen(pubKey: PubKey, seen: seq<Position>)
    requires |pubKey| == PUBLIC_KEY_SIZE
    requires Listing(seen, {HistoryKey(pubKey, 0, 0)}, pubKey, ScanFrom(-99, 0), ScanTo(1))
    ensures Listing([Position(0, 0)], {HistoryKey(pubKey, 0, 0)}, pubKey, Position(-99, 0), 1)
    ensures seen == []
  {
    EarlyRewardsGoUnseen({HistoryKey(pubKey, 0, 0)}, pubKey, 0, seen);
  }

  /** The plots and indices at the first places of a listing. */
  ghost predicate Found(ids: seq<PlotID>, indices: seq<int>, heights: map<int, PlotID>, all: seq<Position>) {
    && |ids| == |indices| <= |all|
    && forall i :: 0 <= i < |ids| ==>
         all[i].height in heights && ids[i] == heights[all[i].height] && indices[i] == all[i].index
  }

  lemma FoundNothing(heights: map<int, PlotID>, all: seq<Position>)
    ensures Found([], [], heights, all)
  {
  }

  lemma FoundAll(ids: seq<PlotID>, indices: seq<int>, heights: map<int, PlotID>, all: seq<Position>)
    requires Found(ids, indices, heights, all) && |ids| == |all|
    ensures forall i :: 0 <= i < |all| ==> all[i].height in heights
  {
  }

  /** A page adds the next n places. */
  lemma FoundMore(ids: seq<PlotID>, indices: seq<int>, page: Page, heights: map<int, PlotID>, all: seq<Position>,
                  n: nat)
    requires Found(ids, indices, heights, all) && |ids| <= |all| && n <= |all[|ids|..]|
    requires PageShows(page, heights, all[|ids|..], n)
    ensures Found(ids + page.ids, indices + page.indices, heights, all) && |page.ids| == n
    ensures n > 0 ==> var last := all[|ids|..][n - 1]; page.lastHeight == last.height && page.lastIndex == last.index
  {
  }

  lemma LastIsStorable(s: seq<Position>, history: set<HistoryKey>, pubKey: PubKey, from: Position, endHeight: int,
                       n: nat)
    requires Listing(s, history, pubKey, from, endHeight) && 0 < n <= |s| && AllStorable(history)
    ensures Storable(s[n - 1].height, s[n - 1].index)
    ensures s[n - 1].height <= endHeight && !Precedes(s[n - 1], from)
  {
    assert s[n - 1] in s;
    assert Listed(history, pubKey, from, endHeight, s[n - 1]);
  }

  lemma SameListing(s: seq<Position>, t: seq<Position>, history: set<HistoryKey>, pubKey: PubKey, from: Position,
                    endHeight: int)
    requires Listing(s, history, pubKey, from, endHeight) && Listing(t, history, pubKey, from, endHeight)
    ensures s == t
  {
    ListingIsUnique(s, t);
  }

  // ---------- an imbalance from its history ----------

  /** What an entry counts for: nothing if it is a plotroot that has not matured at the tip. */
  function Counts(db: Database, plots: Plots, pubKey: PubKey, p: Position): Option<int> {
    var tip := if db.tip.Some? then db.tip.value.height else 0;
    if p.index == 0 && p.height > tip - PLOTROOT_MATURITY then Some(0)
    else
      match PlotAt(db, plots, p.height)
      case None => None
      case Some(plot) =>
        if !(0 <= p.index < |plot.reps|) then None
        else
          var tx := plot.reps[p.index];
          if pubKey == tx.forKey then Some(1) else if Some(pubKey) == tx.byKey then Some(-1) else None
  }

  function Tally(db: Database, plots: Plots, pubKey: PubKey, entries: seq<Position>): Option<int> {
    if entries == [] then Some(0)
    else
      var front := Tally(db, plots, pubKey, entries[..|entries| - 1]);
      var last := Counts(db, plots, pubKey, entries[|entries| - 1]);
      if front.Some? && last.Some? then Some(front.value + last.value) else None
  }

  lemma TallyStep(db: Database, plots: Plots, pubKey: PubKey, entries: seq<Position>, i: nat)
    requires i < |entries|
    ensures var front, last := Tally(db, plots, pubKey, entries[..i]), Counts(db, plots, pubKey, entries[i]);
      Tally(db, plots, pubKey, entries[..i + 1]) ==
        if front.Some? && last.Some? then Some(front.value + last.value) else None
  {
    assert entries[..i + 1][..i] == entries[..i];
  }

  lemma {:induction false} TallyFails(db: Database, plots: Plots, pubKey: PubKey, entries: seq<Position>, i: nat)
    requires i <= |entries| && Tally(db, plots, pubKey, entries[..i]).None?
    ensures Tally(db, plots, pubKey, entries).None?
    decreases |entries| - i
  {
    if i < |entries| {
      TallyStep(db, plots, pubKey, entries, i);
      TallyFails(db, plots, pubKey, entries, i + 1);
    } else {
      assert entries[..i] == entries;
    }
  }

  /** The imbalance a key's history up to a height gives; None stands for the errors. */
  method GetPublicKeyImbalanceAt(ledger: LedgerDisk, pubKey: PubKey, height: int)
    returns (imbalance: Option<int>)
    requires AllStorable(ledger.db.history) && |pubKey| == PUBLIC_KEY_SIZE
    ensures exists all: seq<Position> ::
      && Listing(all, ledger.db.history, pubKey, Position(0, 0), ScanTo(height))
      && imbalance == Tally(ledger.db, ledger.plotStore.plots, pubKey, all)
  {
    hide Listing, IsRange, KeyOf, DecodeKey, PlaceOf, IndexKey, HistoryKeys.Within, Tally;
    ghost var db, plots, history := ledger.db, ledger.plotStore.plots, ledger.db.history;
    var currentHeight := if ledger.GetThreadTip().Some? then ledger.GetThreadTip().value.height else 0;
    var startKey, endKey := IndexKey(pubKey, None, None), IndexKey(pubKey, Some(height + 1), None);
    var iter := NewIterator(ledger.db.history, startKey, endKey);
    WholeRange(history, pubKey, height);
    RangeIsListing(iter, history, startKey, endKey, pubKey, Position(0, 0), ScanTo(height));
    ghost var all := Places(iter);
    TallyNone(db, plots, pubKey, all[..0]);
    var total := 0;
    for i := 0 to |iter|
      invariant Tally(db, plots, pubKey, all[..i]) == Some(total)
    {
      KeyInRange(iter, history, startKey, endKey, pubKey, Position(0, 0), ScanTo(height), i);
      TallyStep(db, plots, pubKey, all, i);
      var e := DecodeKey(iter[i]).value;
      if e.index == 0 && e.height > currentHeight - PLOTROOT_MATURITY {
        continue;
      }
      var amount := CountOne(ledger, pubKey, e.height, e.index);
      if amount.None? {
        TallyFails(db, plots, pubKey, all, i + 1);
        return None;
      }
      total := total + amount.value;
    }
    assert all[..|iter|] == all;
    imbalance := Some(total);
  }

  /** Looks up the representation of one entry. */
  method CountOne(ledger: LedgerDisk, pubKey: PubKey, height: int, index: int) returns (amount: Option<int>)
    requires var tip := if ledger.db.tip.Some? then ledger.db.tip.value.height else 0;
      !(index == 0 && height > tip - PLOTROOT_MATURITY)
    ensures amount == Counts(ledger.db, ledger.plotStore.plots, pubKey, Position(height, index))
  {
    var id := ledger.GetPlotIDForHeight(height);
    if id.None? {
      return None;
    }
    var tx := ledger.plotStore.GetRepresentation(id.value, index);
    if tx.None? {
      return None;
    }
    if pubKey == tx.value.forKey {
      return Some(1);
    } else if Some(pubKey) == tx.value.byKey {
      return Some(-1);
    }
    return None;
  }

  lemma TallyNone(db: Database, plots: Plots, pubKey: PubKey, entries: seq<Position>)
    requires entries == []
    ensures Tally(db, plots, pubKey, entries) == Some(0)
  {
  }

  // ---------- the recomputed imbalance is the stored one ----------

  /** The entries of a key in one plot's first m representations. */
  ghost function PlotEntries(reps: seq<Representation>, pubKey: PubKey, height: int, m: nat): seq<Position>
    requires m <= |reps|
  {
    if m == 0 then []
    else PlotEntries(reps, pubKey, height, m - 1)
         + if pubKey in reps[m - 1].Parties() then [Position(height, m - 1)] else []
  }

  /** The entries of a key in a thread's first n plots. */
  ghost function Entries(chain: Thread, pubKey: PubKey, n: nat): seq<Position>
    requires n <= |chain|
  {
    if n == 0 then []
    else Entries(chain, pubKey, n - 1) + PlotEntries(chain[n - 1].plot.reps, pubKey, n - 1, |chain[n - 1].plot.reps|)
  }

  lemma {:induction false} PlotEntriesList(reps: seq<Representation>, pubKey: PubKey, height: int, m: nat)
    requires m <= |reps|
    ensures var s := PlotEntries(reps, pubKey, height, m);
      && (forall i, j :: 0 <= i < j < |s| ==> Precedes(s[i], s[j]))
      && (forall p :: p in s <==> p.height == height && 0 <= p.index < m && pubKey in reps[p.index].Parties())
  {
    if m > 0 {
      PlotEntriesList(reps, pubKey, height, m - 1);
    }
  }

  lemma {:induction false} EntriesList(chain: Thread, pubKey: PubKey, n: nat)
    requires n <= |chain|
    ensures var s := Entries(chain, pubKey, n);
      && (forall i, j :: 0 <= i < j < |s| ==> Precedes(s[i], s[j]))
      && (forall p :: p in s <==> At(chain, p) && p.height < n && pubKey in RepAt(chain, p).Parties())
  {
    if n > 0 {
      EntriesList(chain, pubKey, n - 1);
      PlotEntriesList(chain[n - 1].plot.reps, pubKey, n - 1, |chain[n - 1].plot.reps|);
      var a, b := Entries(chain, pubKey, n - 1),
                 PlotEntries(chain[n - 1].plot.reps, pubKey, n - 1, |chain[n - 1].plot.reps|);
      forall i, j | 0 <= i < j < |a + b| ensures Precedes((a + b)[i], (a + b)[j]) {
        if i < |a| <= j {
          assert a[i] in a && b[j - |a|] in b;
        }
      }
    }
  }

  /** Without pruning the history of a key lists all its representations on the main thread. */
  lemma HistoryListsThread(rules: Rules, db: Database, chain: Thread, pubKey: PubKey)
    requires Reflects(rules, db, chain) && !rules.prune && chain != []
    ensures Listing(Entries(chain, pubKey, |chain|), db.history, pubKey, Position(0, 0), |chain| - 1)
  {
    EntriesList(chain, pubKey, |chain|);
    var s := Entries(chain, pubKey, |chain|);
    forall p ensures p in s <==> Listed(db.history, pubKey, Position(0, 0), |chain| - 1, p) {
      assert HistoryKey(pubKey, p.height, p.index) in db.history <==>
             InWindow(chain, 0, p) && pubKey in RepAt(chain, p).Parties();
    }
  }

  /** What an entry of the thread is worth to a key, with plotroots counted from `mature` heights on down. */
  ghost function WorthOf(chain: Thread, pubKey: PubKey, mature: int, p: Position): int {
    if !At(chain, p) || (p.index == 0 && p.height >= mature) then 0 else Delta(RepAt(chain, p), pubKey)
  }

  ghost function Worth(chain: Thread, pubKey: PubKey, mature: int, s: seq<Position>): int {
    if s == [] then 0 else Worth(chain, pubKey, mature, s[..|s| - 1]) + WorthOf(chain, pubKey, mature, s[|s| - 1])
  }

  lemma {:induction false} WorthConcat(chain: Thread, pubKey: PubKey, mature: int, s: seq<Position>, t: seq<Position>)
    ensures Worth(chain, pubKey, mature, s + t) == Worth(chain, pubKey, mature, s) + Worth(chain, pubKey, mature, t)
  {
    if t == [] {
      assert s + t == s;
    } else {
      WorthConcat(chain, pubKey, mature, s, t[..|t| - 1]);
      assert (s + t)[..|s + t| - 1] == s + t[..|t| - 1];
    }
  }

  lemma WorthOfOne(chain: Thread, pubKey: PubKey, mature: int, p: Position)
    ensures Worth(chain, pubKey, mature, [p]) == WorthOf(chain, pubKey, mature, p)
  {
    assert [p][..0] == [];
  }

  /** An entry counts for what it is worth: sender and recipient differ. */
  lemma CountsIsWorth(rules: Rules, db: Database, plots: Plots, chain: Thread, pubKey: PubKey, p: Position)
    requires Reflects(rules, db, chain) && Holds(plots, chain)
    requires At(chain, p) && pubKey in RepAt(chain, p).Parties()
    ensures Counts(db, plots, pubKey, p) == Some(WorthOf(chain, pubKey, |chain| - PLOTROOT_MATURITY, p))
  {
    assert LinkOk(chain, p.height);
    PlotAtReflects(rules, db, plots, chain, p.height);
  }

  lemma {:induction false} TallyIsWorth(rules: Rules, db: Database, plots: Plots, chain: Thread, pubKey: PubKey,
                                        s: seq<Position>)
    requires Reflects(rules, db, chain) && Holds(plots, chain)
    requires forall p :: p in s ==> At(chain, p) && pubKey in RepAt(chain, p).Parties()
    ensures Tally(db, plots, pubKey, s) == Some(Worth(chain, pubKey, |chain| - PLOTROOT_MATURITY, s))
  {
    hide Reflects, Holds, Counts, WorthOf, At;
    if s != [] {
      TallyIsWorth(rules, db, plots, chain, pubKey, s[..|s| - 1]);
      assert s[|s| - 1] in s;
      CountsIsWorth(rules, db, plots, chain, pubKey, s[|s| - 1]);
    }
  }

  lemma {:induction false} PlotWorth(chain: Thread, pubKey: PubKey, mature: int, h: nat, m: nat)
    requires h < |chain| && 1 <= m <= |chain[h].plot.reps|
    ensures Worth(chain, pubKey, mature, PlotEntries(chain[h].plot.reps, pubKey, h, m))
            == (if h < mature then Delta(chain[h].plot.reps[0], pubKey) else 0) + Net(chain[h].plot.reps[1..m], pubKey)
  {
    var reps := chain[h].plot.reps;
    var more := if pubKey in reps[m - 1].Parties() then [Position(h, m - 1)] else [];
    if m == 1 {
      assert PlotEntries(reps, pubKey, h, 0) == [];
      assert PlotEntries(reps, pubKey, h, 1) == more;
    } else {
      PlotWorth(chain, pubKey, mature, h, m - 1);
      WorthConcat(chain, pubKey, mature, PlotEntries(reps, pubKey, h, m - 1), more);
      assert reps[1..m][..m - 2] == reps[1..m - 1];
    }
    if more != [] {
      WorthOfOne(chain, pubKey, mature, Position(h, m - 1));
    }
  }

  /** What the first n plots move to or from a key, besides plotroots. */
  ghost function Moved(chain: Thread, pubKey: PubKey, n: nat): int
    requires IsThread(chain) && n <= |chain|
  {
    if n == 0 then 0
    else assert LinkOk(chain, n - 1); Moved(chain, pubKey, n - 1) + Net(chain[n - 1].plot.reps[1..], pubKey)
  }

  /** What the plotroots of the first n plots give a key. */
  ghost function Roots(chain: Thread, pubKey: PubKey, n: nat): int
    requires IsThread(chain) && n <= |chain|
  {
    if n == 0 then 0
    else assert LinkOk(chain, n - 1); Roots(chain, pubKey, n - 1) + Delta(chain[n - 1].plot.reps[0], pubKey)
  }

  function Least2(a: int, b: int): nat {
    var m := if a < b then a else b;
    if m < 0 then 0 else m
  }

  lemma OneMorePlot(chain: Thread, pubKey: PubKey, n: nat)
    requires IsThread(chain) && 0 < n <= |chain|
    ensures var reps := chain[n - 1].plot.reps;
      && |reps| > 0
      && Entries(chain, pubKey, n) == Entries(chain, pubKey, n - 1) + PlotEntries(reps, pubKey, n - 1, |reps|)
      && Moved(chain, pubKey, n) == Moved(chain, pubKey, n - 1) + Net(reps[1..], pubKey)
      && Roots(chain, pubKey, n) == Roots(chain, pubKey, n - 1) + Delta(reps[0], pubKey)
      && reps[1..|reps|] == reps[1..]
  {
    assert LinkOk(chain, n - 1);
    hide Net, Delta, PlotEntries;
  }

  lemma NoPlots(chain: Thread, pubKey: PubKey, mature: int)
    requires IsThread(chain)
    ensures Worth(chain, pubKey, mature, Entries(chain, pubKey, 0)) == 0
    ensures Moved(chain, pubKey, 0) == 0 && Roots(chain, pubKey, 0) == 0
  {
  }

  lemma Least2Means(a: int, b: int)
    ensures Least2(a, b) == if a < b then (if a < 0 then 0 else a) else if b < 0 then 0 else b
  {
  }

  lemma {:induction false} EntriesWorth(chain: Thread, pubKey: PubKey, mature: int, n: nat)
    requires IsThread(chain) && n <= |chain|
    ensures Least2(mature, n) <= n
    ensures Worth(chain, pubKey, mature, Entries(chain, pubKey, n))
            == Moved(chain, pubKey, n) + Roots(chain, pubKey, Least2(mature, n))
  {
    hide *;
    Least2Means(mature, n);
    if n > 0 {
      Least2Means(mature, n - 1);
      OneMorePlot(chain, pubKey, n);
      var reps := chain[n - 1].plot.reps;
      EntriesWorth(chain, pubKey, mature, n - 1);
      WorthConcat(chain, pubKey, mature, Entries(chain, pubKey, n - 1), PlotEntries(reps, pubKey, n - 1, |reps|));
      PlotWorth(chain, pubKey, mature, n - 1, |reps|);
    } else {
      NoPlots(chain, pubKey, mature);
    }
  }

  /** What a thread has applied to a key: plotroots 100 plots late. */
  lemma {:induction false} EffectsWorth(chain: Thread, pubKey: PubKey, n: nat)
    requires IsThread(chain) && n <= |chain|
    ensures IsThread(chain[..n]) && Least2(n - PLOTROOT_MATURITY, n) <= n
    ensures Net(ThreadEffects(chain[..n]), pubKey)
            == Moved(chain, pubKey, n) + Roots(chain, pubKey, Least2(n - PLOTROOT_MATURITY, n))
  {
    hide *;
    Maturity();
    ThreadPrefix(chain, n);
    Least2Means(n - PLOTROOT_MATURITY, n);
    if n > 0 {
      Least2Means(n - 1 - PLOTROOT_MATURITY, n - 1);
      EffectsWorth(chain, pubKey, n - 1);
      EffectsOneMore(chain, pubKey, n);
      OneMorePlot(chain, pubKey, n);
      OnePlotWorth(chain, pubKey, n - 1);
      if n > PLOTROOT_MATURITY {
        OneMorePlot(chain, pubKey, n - PLOTROOT_MATURITY);
      }
    } else {
      NoEffects(chain, pubKey);
    }
  }

  lemma Maturity()
    ensures PLOTROOT_MATURITY == 100
  {
  }

  lemma NoEffects(chain: Thread, pubKey: PubKey)
    requires IsThread(chain)
    ensures IsThread(chain[..0]) && Net(ThreadEffects(chain[..0]), pubKey) == 0
    ensures Moved(chain, pubKey, 0) == 0 && Roots(chain, pubKey, 0) == 0
  {
  }

  lemma EffectsOneMore(chain: Thread, pubKey: PubKey, n: nat)
    requires IsThread(chain) && 0 < n <= |chain|
    ensures IsThread(chain[..n]) && IsThread(chain[..n - 1])
    ensures Net(ThreadEffects(chain[..n]), pubKey)
            == Net(ThreadEffects(chain[..n - 1]), pubKey) + Net(EffectsAt(chain, n - 1), pubKey)
  {
    hide IsThread, ThreadEffects, EffectsAt, Net;
    ThreadPrefix(chain, n);
    ThreadPrefix(chain, n - 1);
    assert chain[..n] == chain[..n - 1] + [chain[n - 1]];
    ThreadEffectsStep(chain[..n - 1], chain[n - 1]);
    EffectsAtPrefix(chain, n, n - 1);
    NetConcat(ThreadEffects(chain[..n - 1]), EffectsAt(chain, n - 1), pubKey);
  }

  lemma OnePlotWorth(chain: Thread, pubKey: PubKey, h: nat)
    requires IsThread(chain) && h < |chain|
    ensures WellShaped(chain[h].plot)
    ensures Net(EffectsAt(chain, h), pubKey) == Net(chain[h].plot.reps[1..], pubKey)
      + (if h >= PLOTROOT_MATURITY
         then assert LinkOk(chain, h - PLOTROOT_MATURITY);
              Delta(chain[h - PLOTROOT_MATURITY].plot.reps[0], pubKey)
         else 0)
  {
    assert LinkOk(chain, h);
    var reps := chain[h].plot.reps;
    var maturing := RootMaturing(chain, h);
    NextEffects(reps[0], reps[1..], maturing);
    assert reps == [reps[0]] + reps[1..];
    if maturing.Some? {
      assert LinkOk(chain, h - PLOTROOT_MATURITY);
      NetConcat([maturing.value], reps[1..], pubKey);
      NetOne(maturing.value, pubKey);
    } else {
      assert [] + reps[1..] == reps[1..];
    }
  }

  /**
   * The imbalance stored for a key is the sum recomputed from its history index at the tip, plotroots
   * counted only once 100 deep. The history must be complete: no pruning.
   */
  lemma StoredImbalanceIsTally(rules: Rules, db: Database, plots: Plots, chain: Thread, pubKey: PubKey,
                               all: seq<Position>)
    requires Reflects(rules, db, chain) && Holds(plots, chain) && !rules.prune && chain != []
    requires Listing(all, db.history, pubKey, Position(0, 0), db.tip.value.height)
    ensures Tally(db, plots, pubKey, all) == Some(Bal(db.imbalances, pubKey))
  {
    hide *;
    var n, mature := |chain|, |chain| - PLOTROOT_MATURITY;
    ReflectsParts(rules, db, chain);
    HistoryListsThread(rules, db, chain, pubKey);
    SameListing(all, Entries(chain, pubKey, n), db.history, pubKey, Position(0, 0), n - 1);
    EntriesList(chain, pubKey, n);
    TallyIsWorth(rules, db, plots, chain, pubKey, all);
    EntriesWorth(chain, pubKey, mature, n);
    EffectsWorth(chain, pubKey, n);
    assert chain[..n] == chain;
    SettleBal(map[], ThreadEffects(chain), pubKey);
    NothingYet(pubKey);
  }

  lemma NothingYet(pubKey: PubKey)
    ensures Bal(map[], pubKey) == 0
  {
  }

  lemma ReflectsParts(rules: Rules, db: Database, chain: Thread)
    requires Reflects(rules, db, chain) && chain != []
    ensures IsThread(chain) && db.tip.Some? && db.tip.value.height == |chain| - 1
    ensures db.imbalances == Settle(map[], ThreadEffects(chain))
  {
  }

  // ---------- on a ledger that is in order ----------

  /** The shape checks that every stored plot has passed make every history entry storable. */
  lemma LedgerIsStorable(rules: Rules, plots: Plots, db: Database)
    requires LedgerOk(rules, plots, db)
    ensures AllStorable(db.history)
  {
    hide *;
    var chain := MainThread(rules, plots, db);
    HistoryIsOnThread(rules, plots, db);
    forall e | e in db.history ensures |e.key| == PUBLIC_KEY_SIZE && Storable(e.height, e.index) {
      MainPlotIsBounded(rules, plots, db, e.height);
      BoundedIsStorable(chain[e.height].plot, e);
    }
    AllStorableFrom(db.history);
  }

  lemma HistoryIsOnThread(rules: Rules, plots: Plots, db: Database)
    requires LedgerOk(rules, plots, db)
    ensures var chain := MainThread(rules, plots, db);
      forall e :: e in db.history ==>
        && 0 <= e.height < |chain| && 0 <= e.index < |chain[e.height].plot.reps|
        && e.key in chain[e.height].plot.reps[e.index].Parties()
  {
    hide LedgerOk;
    var chain := MainThread(rules, plots, db);
    ReflectsHistory(rules, plots, db);
    forall e | e in db.history
      ensures 0 <= e.height < |chain| && 0 <= e.index < |chain[e.height].plot.reps|
              && e.key in chain[e.height].plot.reps[e.index].Parties()
    {
      assert InWindow(chain, Low(rules, |chain|), Position(e.height, e.index));
    }
  }

  lemma ReflectsHistory(rules: Rules, plots: Plots, db: Database)
    requires LedgerOk(rules, plots, db)
    ensures var chain := MainThread(rules, plots, db);
      HistoryMatches(db.history, chain, Low(rules, |chain|))
  {
  }

  lemma BoundedIsStorable(plot: Plot, e: HistoryKey)
    requires Bounded(plot) && plot.header.height == e.height && 0 <= e.index < |plot.reps|
    requires e.key in plot.reps[e.index].Parties()
    ensures |e.key| == PUBLIC_KEY_SIZE && Storable(e.height, e.index)
  {
  }

  lemma AllStorableFrom(history: set<HistoryKey>)
    requires forall e :: e in history ==> |e.key| == PUBLIC_KEY_SIZE && Storable(e.height, e.index)
    ensures AllStorable(history)
  {
  }

  lemma MainPlotIsBounded(rules: Rules, plots: Plots, db: Database, h: nat)
    requires LedgerOk(rules, plots, db) && h < |MainThread(rules, plots, db)|
    ensures var plot := MainThread(rules, plots, db)[h].plot;
      plot.header.height == h && Bounded(plot)
  {
    hide Reflects, ValidThread, Bounded, BranchesOk;
    PathEnd(rules, plots, db.tip.value.id);
    PathPrefix(plots, rules.genesisID, db.tip.value.id, h);
    assert PlotOk(rules, plots, MainThread(rules, plots, db)[h].id);
  }

  lemma MainIsHeldToo(rules: Rules, plots: Plots, db: Database)
    requires LedgerOk(rules, plots, db)
    ensures var chain := MainThread(rules, plots, db);
      && Reflects(rules, db, chain) && Holds(plots, chain) && chain != []
      && db.tip.Some? && 0 <= db.tip.value.height == |chain| - 1 <= MAX_NUMBER
  {
    var chain := MainThread(rules, plots, db);
    PathEnd(rules, plots, db.tip.value.id);
    MainPlotIsBounded(rules, plots, db, |chain| - 1);
    PathHeld(plots, rules.genesisID, db.tip.value.id);
  }

  /** Compares a key's stored imbalance with the one its history gives: on an unpruned ledger they agree. */
  method VerifyKey(ledger: LedgerDisk, pubKey: PubKey) returns (stored: int, found: Option<int>)
    requires LedgerOk(ledger.rules, ledger.plotStore.plots, ledger.db)
    requires !ledger.rules.prune && |pubKey| == PUBLIC_KEY_SIZE
    ensures stored == Bal(ledger.db.imbalances, pubKey) && found == Some(stored)
  {
    hide *;
    ghost var rules, plots, db := ledger.rules, ledger.plotStore.plots, ledger.db;
    LedgerIsStorable(rules, plots, db);
    MainIsHeldToo(rules, plots, db);
    stored := StoredImbalance(ledger, pubKey);
    var height := ledger.db.tip.value.height;
    found := GetPublicKeyImbalanceAt(ledger, pubKey, height);
    ghost var all: seq<Position> :| Listing(all, db.history, pubKey, Position(0, 0), ScanTo(height))
                                    && found == Tally(db, plots, pubKey, all);
    WithinNumbers(height);
    StoredImbalanceIsTally(rules, db, plots, MainThread(rules, plots, db), pubKey, all);
  }

  method StoredImbalance(ledger: LedgerDisk, pubKey: PubKey) returns (imbalance: int)
    ensures imbalance == Bal(ledger.db.imbalances, pubKey)
  {
    imbalance := ledger.GetPublicKeyImbalance(pubKey);
  }

  lemma WithinNumbers(height: int)
    requires 0 <= height <= MAX_NUMBER
    ensures ScanTo(height) == height
  {
    HighestEnd(height);
  }
}
