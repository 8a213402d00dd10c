/** Keys of the history index: their bytes, how they decode, and the order the store keeps them in. */
module HistoryKeys {
  import opened Plots
  import opened LedgerSpec

  type Bytes = seq<byte>

  const PUB_KEY_REPRESENTATION_INDEX_PREFIX: byte := 0x6B

  const MAX_INT32 := 0x7FFF_FFFF
  const MAX_INT64 := 0x7FFF_FFFF_FFFF_FFFF

  // ---------- the store's order ----------

  /** Bytewise order, a proper prefix before what it starts. */
  predicate Less(a: Bytes, b: Bytes) {
    b != [] && (a == [] || a[0] < b[0] || (a[0] == b[0] && Less(a[1..], b[1..])))
  }

  lemma {:induction false} LessIsTotal(a: Bytes, b: Bytes)
    ensures !(Less(a, b) && Less(b, a)) && (a != b ==> Less(a, b) || Less(b, a)) && !Less(a, a)
  {
    if a != [] && b != [] && a[0] == b[0] {
      LessIsTotal(a[1..], b[1..]);
      assert a == [a[0]] + a[1..] && b == [b[0]] + b[1..];
    }
    if a != [] {
      LessIsTotal(a[1..], a[1..]);
    }
  }

  lemma {:induction false} LessIsTransitive(a: Bytes, b: Bytes, c: Bytes)
    requires Less(a, b) && Less(b, c)
    ensures Less(a, c)
  {
    if a != [] && a[0] == b[0] == c[0] {
      LessIsTransitive(a[1..], b[1..], c[1..]);
    }
  }

  /** Between texts with leading parts of equal length, the leading parts decide unless they are equal. */
  lemma {:induction false} LeadingDecides(p: Bytes, q: Bytes, a: Bytes, b: Bytes)
    requires |p| == |q|
    ensures Less(p + a, q + b) <==> if p == q then Less(a, b) else Less(p, q)
  {
    if p == [] {
      assert p + a == a && q + b == b;
    } else {
      LeadingDecides(p[1..], q[1..], a, b);
      assert (p + a)[1..] == p[1..] + a && (q + b)[1..] == q[1..] + b;
      assert p == [p[0]] + p[1..] && q == [q[0]] + q[1..];
    }
  }

  // ---------- big-endian numbers ----------

  function Pow256(w: nat): (p: nat)
    ensures p > 0
  {
    if w == 0 then 1 else 256 * Pow256(w - 1)
  }

  function BigEndian(n: nat, w: nat): (b: Bytes)
    ensures |b| == w
  {
    if w == 0 then [] else BigEndian(n / 256, w - 1) + [n % 256]
  }

  function Value(b: Bytes): (n: nat)
  {
    if b == [] then 0 else 256 * Value(b[..|b| - 1]) + b[|b| - 1]
  }

  /** The bytes read back as the number. */
  lemma {:induction false} BigEndianReadsBack(n: nat, w: nat)
    requires n < Pow256(w)
    ensures Value(BigEndian(n, w)) == n
  {
    if w > 0 {
      BigEndianReadsBack(n / 256, w - 1);
      var b := BigEndian(n, w);
      assert b[..w - 1] == BigEndian(n / 256, w - 1) && b[w - 1] == n % 256;
    }
  }

  /** Numbers are ordered as their bytes. */
  lemma {:induction false} BigEndianOrder(m: nat, n: nat, w: nat)
    requires m < Pow256(w) && n < Pow256(w)
    ensures Less(BigEndian(m, w), BigEndian(n, w)) <==> m < n
    ensures BigEndian(m, w) == BigEndian(n, w) <==> m == n
  {
    BigEndianReadsBack(m, w);
    BigEndianReadsBack(n, w);
    if w > 0 {
      BigEndianOrder(m / 256, n / 256, w - 1);
      LeadingDecides(BigEndian(m / 256, w - 1), BigEndian(n / 256, w - 1), [m % 256], [n % 256]);
      OneByte(m % 256, n % 256);
    }
  }

  lemma OneByte(x: byte, y: byte)
    ensures Less([x], [y]) <==> x < y
  {
  }

  // ---------- fixed-width integers ----------

  /** Two's complement of `w` bytes; wider numbers lose their upper bytes. */
  function Encode(x: int, w: nat): (b: Bytes)
    ensures |b| == w
  {
    BigEndian(x % Pow256(w), w)
  }

  function Decode(b: Bytes): int
    requires b != []
  {
    var n := Value(b);
    if 2 * n >= Pow256(|b|) then n - Pow256(|b|) else n
  }

  /** What a 64-bit or a 32-bit number's bytes read as without their sign: negative numbers come after all others. */
  function Unsigned64(x: int): nat {
    x % 0x1_0000_0000_0000_0000
  }

  function Unsigned32(x: int): nat {
    x % 0x1_0000_0000
  }

  lemma UnsignedMeans(x: int)
    ensures InRange64(x) ==> Unsigned64(x) == if x >= 0 then x else x + 0x1_0000_0000_0000_0000
    ensures InRange32(x) ==> Unsigned32(x) == if x >= 0 then x else x + 0x1_0000_0000
  {
    if InRange64(x) {
      Wraps(x, 0x1_0000_0000_0000_0000);
    }
    if InRange32(x) {
      Wraps(x, 0x1_0000_0000);
    }
  }

  /** Every number in the type's range decodes to itself, negative ones too. */
  lemma EncodeReadsBack(x: int, w: nat)
    requires w > 0 && 0 <= 2 * x + Pow256(w) < 2 * Pow256(w)
    ensures Decode(Encode(x, w)) == x
  {
    var p := Pow256(w);
    assert x % p == if x >= 0 then x else x + p by {
      Wraps(x, p);
    }
    BigEndianReadsBack(x % p, w);
  }

  lemma Wraps(x: int, p: nat)
    requires 0 <= x + p < 2 * p
    ensures x % p == if x >= 0 then x else x + p
  {
    if x < 0 {
      assert x == (-1) * p + (x + p);
    }
  }

  lemma Widths()
    ensures Pow256(4) == 0x1_0000_0000 && Pow256(8) == 0x1_0000_0000_0000_0000
  {
    assert Pow256(3) == 0x100_0000 && Pow256(2) == 0x1_0000 && Pow256(1) == 256;
  }

  // ---------- keys ----------

  /** A key of the history index, or the start of one when height or index are left out. */
  function IndexKey(pubKey: PubKey, height: Option<int>, index: Option<int>): Bytes {
    [PUB_KEY_REPRESENTATION_INDEX_PREFIX] + pubKey
    + (if height.None? then []
       else Encode(height.value, 8) + if index.None? then [] else Encode(index.value, 4))
  }

  function KeyOf(e: HistoryKey): Bytes {
    IndexKey(e.key, Some(e.height), Some(e.index))
  }

  function DecodeKey(b: Bytes): Option<HistoryKey> {
    if |b| < 1 + PUBLIC_KEY_SIZE + 8 + 4 then None
    else Some(HistoryKey(b[1..33], Decode(b[33..41]), Decode(b[41..45])))
  }

  predicate InRange64(x: int) {
    -MAX_INT64 - 1 <= x <= MAX_INT64
  }

  predicate InRange32(x: int) {
    -MAX_INT32 - 1 <= x <= MAX_INT32
  }

  /** Decoding undoes encoding, for every height and index of the source's types. */
  lemma KeyReadsBack(e: HistoryKey)
    requires |e.key| == PUBLIC_KEY_SIZE && InRange64(e.height) && InRange32(e.index)
    ensures DecodeKey(KeyOf(e)) == Some(e)
  {
    var b := KeyOf(e);
    Widths();
    EncodeReadsBack(e.height, 8);
    EncodeReadsBack(e.index, 4);
    assert b[1..33] == e.key && b[33..41] == Encode(e.height, 8) && b[41..45] == Encode(e.index, 4);
  }

  /** Heights and indices that can occur: not negative, and with room for one more. */
  predicate Storable(height: int, index: int) {
    0 <= height < MAX_INT64 && 0 <= index < MAX_INT32
  }

  predicate Before(h: int, i: int, h': int, i': int) {
    h < h' || (h == h' && i < i')
  }

  lemma EncodedOrder(x: int, y: int, w: nat)
    ensures Less(Encode(x, w), Encode(y, w)) <==> x % Pow256(w) < y % Pow256(w)
    ensures Encode(x, w) == Encode(y, w) <==> x % Pow256(w) == y % Pow256(w)
  {
    BigEndianOrder(x % Pow256(w), y % Pow256(w), w);
  }

  /** The part of a key that follows the public key. */
  function Place(height: int, index: Option<int>): Bytes {
    Encode(height, 8) + if index.None? then [] else Encode(index.value, 4)
  }

  /** Places are ordered by height, then index, both without sign; a height alone comes before all its indices. */
  lemma PlaceOrder(h: int, i: int, h': int, i': Option<int>)
    ensures Less(Place(h, Some(i)), Place(h', i')) <==>
              if i'.Some? then Before(Unsigned64(h), Unsigned32(i), Unsigned64(h'), Unsigned32(i'.value))
              else Unsigned64(h) < Unsigned64(h')
    ensures Place(h, Some(i)) == Place(h', i') <==>
              Unsigned64(h) == Unsigned64(h') && i'.Some? && Unsigned32(i) == Unsigned32(i'.value)
  {
    Widths();
    hide Encode, Less, Pow256;
    EncodedOrder(h, h', 8);
    LeadingDecides(Encode(h, 8), Encode(h', 8), Encode(i, 4), if i'.None? then [] else Encode(i'.value, 4));
    if i'.Some? {
      EncodedOrder(i, i'.value, 4);
      PlacesDiffer(Encode(h, 8), Encode(h', 8), Encode(i, 4), Encode(i'.value, 4));
    } else {
      NothingIsLeast(Encode(i, 4));
    }
  }

  lemma NothingIsLeast(b: Bytes)
    ensures !Less(b, [])
  {
  }

  lemma PlacesDiffer(a: Bytes, a': Bytes, b: Bytes, b': Bytes)
    requires |a| == |a'|
    ensures a + b == a' + b' <==> a == a' && b == b'
  {
    if a + b == a' + b' {
      assert a == (a + b)[..|a|] && a' == (a' + b')[..|a'|];
      assert b == (a + b)[|a|..] && b' == (a' + b')[|a'|..];
    }
  }

  /** The store's order on the keys of one public key is the order of heights, then indices. */
  lemma KeyOrder(pubKey: PubKey, h: int, i: int, h': int, i': int)
    requires Storable(h, i) && Storable(h', i')
    ensures Less(KeyOf(HistoryKey(pubKey, h, i)), KeyOf(HistoryKey(pubKey, h', i'))) <==> Before(h, i, h', i')
  {
    PlaceOrder(h, i, h', Some(i'));
    LeadingDecides([PUB_KEY_REPRESENTATION_INDEX_PREFIX] + pubKey, [PUB_KEY_REPRESENTATION_INDEX_PREFIX] + pubKey,
                   Place(h, Some(i)), Place(h', Some(i')));
    StoredAsIs(h, i);
    StoredAsIs(h', i');
  }

  lemma StoredAsIs(h: int, i: int)
    requires Storable(h, i)
    ensures Unsigned64(h) == h && Unsigned32(i) == i
  {
    UnsignedMeans(h);
    UnsignedMeans(i);
  }

  predicate Within(k: Bytes, start: Bytes, limit: Bytes) {
    !Less(k, start) && Less(k, limit)
  }

  /**
   * A range that starts at a height and index of one public key and ends before a height holds exactly
   * that key's entries from there up to the height, whatever other keys are stored. Height and index are
   * read without their sign: a range from a negative height holds nothing.
   */
  lemma RangeHolds(e: HistoryKey, pubKey: PubKey, height: int, index: int, endHeight: int)
    requires |e.key| == |pubKey| && Storable(e.height, e.index)
    ensures Within(KeyOf(e), IndexKey(pubKey, Some(height), Some(index)), IndexKey(pubKey, Some(endHeight), None)) <==>
              && e.key == pubKey && e.height < Unsigned64(endHeight)
              && !Before(e.height, e.index, Unsigned64(height), Unsigned32(index))
  {
    var p, q := [PUB_KEY_REPRESENTATION_INDEX_PREFIX] + e.key, [PUB_KEY_REPRESENTATION_INDEX_PREFIX] + pubKey;
    LeadingDecides(p, q, Place(e.height, Some(e.index)), Place(height, Some(index)));
    LeadingDecides(p, q, Place(e.height, Some(e.index)), Place(endHeight, None));
    PlaceOrder(e.height, e.index, height, Some(index));
    PlaceOrder(e.height, e.index, endHeight, None);
    StoredAsIs(e.height, e.index);
    LessIsTotal(p, q);
    assert p[1..] == e.key && q[1..] == pubKey;
    hide Less, Encode, Unsigned64, Unsigned32;
  }

  /** Without a starting height the range holds all of that key's entries below the end. */
  lemma OpenRangeHolds(e: HistoryKey, pubKey: PubKey, endHeight: int)
    requires |e.key| == |pubKey| && Storable(e.height, e.index)
    ensures Within(KeyOf(e), IndexKey(pubKey, None, None), IndexKey(pubKey, Some(endHeight), None)) <==>
              e.key == pubKey && e.height < Unsigned64(endHeight)
  {
    var p, q := [PUB_KEY_REPRESENTATION_INDEX_PREFIX] + e.key, [PUB_KEY_REPRESENTATION_INDEX_PREFIX] + pubKey;
    LeadingDecides(p, q, Place(e.height, Some(e.index)), []);
    NothingIsLeast(Place(e.height, Some(e.index)));
    assert q + [] == q;
    LeadingDecides(p, q, Place(e.height, Some(e.index)), Place(endHeight, None));
    PlaceOrder(e.height, e.index, endHeight, None);
    StoredAsIs(e.height, e.index);
    LessIsTotal(p, q);
    assert p[1..] == e.key && q[1..] == pubKey;
    hide Less, Encode, Unsigned64, Unsigned32;
  }
}
