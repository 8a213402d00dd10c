/** The serialised plot header. The text is ASCII, so a byte of it is a character. */
module HeaderText {
  import opened Plots
  import HistoryKeys

  type int64 = x: int | -0x8000_0000_0000_0000 <= x < 0x8000_0000_0000_0000
  type int32 = x: int | -0x8000_0000 <= x < 0x8000_0000

  /** A 32-byte ID. */
  type ID = b: seq<byte> | |b| == 32 witness seq(32, _ => 0)

  datatype Header = Header(
    previous: ID, hashListRoot: ID, time: int64, target: ID,
    threadWork: ID, nonce: int64, height: int64, representationCount: int32)

  // ---------- numbers and IDs as text ----------

  function Digit(d: nat): char
    requires d < 10
  {
    '0' + d as char
  }

  function Decimal(n: nat): (s: string)
    ensures s != []
  {
    if n < 10 then [Digit(n)] else Decimal(n / 10) + [Digit(n % 10)]
  }

  function Int(x: int): (s: string)
    ensures s != []
  {
    if x < 0 then "-" + Decimal(-x) else Decimal(x)
  }

  function HexDigit(d: nat): char
    requires d < 16
  {
    if d < 10 then '0' + d as char else 'a' + (d - 10) as char
  }

  function Hex(b: seq<byte>): (s: string)
    ensures |s| == 2 * |b|
  {
    if b == [] then [] else Hex(b[..|b| - 1]) + [HexDigit(b[|b| - 1] / 16), HexDigit(b[|b| - 1] % 16)]
  }

  // ---------- the serialised header ----------

  function Member(name: string, value: string): string {
    "\"" + name + "\":" + value
  }

  function Quoted(s: string): string {
    "\"" + s + "\""
  }

  function Joined(members: seq<string>): string {
    if members == [] then []
    else if |members| == 1 then members[0]
    else Joined(members[..|members| - 1]) + "," + members[|members| - 1]
  }

  function Members(h: Header): seq<string> {
    [ Member("previous", Quoted(Hex(h.previous))),
      Member("hash_list_root", Quoted(Hex(h.hashListRoot))),
      Member("time", Int(h.time)),
      Member("target", Quoted(Hex(h.target))),
      Member("thread_work", Quoted(Hex(h.threadWork))),
      Member("nonce", Int(h.nonce)),
      Member("height", Int(h.height)),
      Member("representation_count", Int(h.representationCount)) ]
  }

  /** The header as a JSON object (section 4 of RFC 8259), its members in the order of the header's fields. */
  function Json(h: Header): string {
    "{" + Joined(Members(h)) + "}"
  }

  // ---------- the buffer's layout ----------

  const HDR_PREVIOUS := "{\"previous\":\""
  const HDR_HASH_LIST_ROOT := "\",\"hash_list_root\":\""
  const HDR_TIME := "\",\"time\":"
  const HDR_TARGET := ",\"target\":\""
  const HDR_THREAD_WORK := "\",\"thread_work\":\""
  const HDR_NONCE := "\",\"nonce\":"
  const HDR_HEIGHT := ",\"height\":"
  const HDR_REPRESENTATION_COUNT := ",\"representation_count\":"
  const HDR_END := "}"

  const BUFFER_LENGTH: nat :=
    |HDR_PREVIOUS| + |HDR_HASH_LIST_ROOT| + |HDR_TIME| + |HDR_TARGET|
    + |HDR_THREAD_WORK| + |HDR_NONCE| + |HDR_HEIGHT| + |HDR_REPRESENTATION_COUNT|
    + |HDR_END| + 4 * 64 + 3 * 19 + 10

  function UpToRoot(h: Header): string {
    HDR_PREVIOUS + Hex(h.previous) + HDR_HASH_LIST_ROOT
  }

  function UpToTime(h: Header): string {
    UpToRoot(h) + Hex(h.hashListRoot) + HDR_TIME
  }

  /** What stands between the time and the nonce. */
  function TargetPart(h: Header): string {
    HDR_TARGET + Hex(h.target) + HDR_THREAD_WORK + Hex(h.threadWork) + HDR_NONCE
  }

  function UpToNonce(h: Header): string {
    UpToTime(h) + Int(h.time) + TargetPart(h)
  }

  /** What stands between the nonce and the count. */
  function HeightPart(h: Header): string {
    HDR_HEIGHT + Int(h.height) + HDR_REPRESENTATION_COUNT
  }

  function UpToCount(h: Header): string {
    UpToNonce(h) + Int(h.nonce) + HeightPart(h)
  }

  function UpToEnd(h: Header): string {
    UpToCount(h) + Int(h.representationCount)
  }

  function Layout(h: Header): string {
    UpToEnd(h) + HDR_END
  }

  // ---------- the layout is the JSON text ----------

  lemma FirstMember(h: Header)
    ensures "{" + Joined(Members(h)[..1]) == HDR_PREVIOUS + Hex(h.previous) + "\""
  {
    assert Members(h)[..1] == [Members(h)[0]];
    assert "{" + "\"" + "previous" + "\":" + "\"" == HDR_PREVIOUS;
  }

  /** One more member, after a comma. */
  lemma NextMember(members: seq<string>, k: nat)
    requires 1 <= k < |members|
    ensures "{" + Joined(members[..k + 1]) == "{" + Joined(members[..k]) + "," + members[k]
  {
    assert members[..k + 1][..k] == members[..k];
  }

  lemma QuotedMember(text: string, before: string, name: string, value: string, hdr: string)
    requires text == before + "\"" && hdr == "\",\"" + name + "\":\""
    ensures text + "," + Member(name, Quoted(value)) == before + hdr + value + "\""
  {
  }

  lemma NumberAfterQuote(text: string, before: string, name: string, value: string, hdr: string)
    requires text == before + "\"" && hdr == "\",\"" + name + "\":"
    ensures text + "," + Member(name, value) == before + hdr + value
  {
  }

  lemma QuotedAfterNumber(text: string, name: string, value: string, hdr: string)
    requires hdr == ",\"" + name + "\":\""
    ensures text + "," + Member(name, Quoted(value)) == text + hdr + value + "\""
  {
  }

  lemma NumberAfterNumber(text: string, name: string, value: string, hdr: string)
    requires hdr == ",\"" + name + "\":"
    ensures text + "," + Member(name, value) == text + hdr + value
  {
  }

  lemma TargetPartSplits(x: string, h: Header)
    ensures x + TargetPart(h) == x + HDR_TARGET + Hex(h.target) + HDR_THREAD_WORK + Hex(h.threadWork) + HDR_NONCE
  {
    hide Hex;
  }

  lemma HeightPartSplits(x: string, h: Header)
    ensures x + HeightPart(h) == x + HDR_HEIGHT + Int(h.height) + HDR_REPRESENTATION_COUNT
  {
    hide Int;
  }

  /** The layout in one line. */
  lemma LayoutSplits(h: Header)
    ensures Layout(h) ==
      HDR_PREVIOUS + Hex(h.previous) + HDR_HASH_LIST_ROOT + Hex(h.hashListRoot) + HDR_TIME + Int(h.time)
      + HDR_TARGET + Hex(h.target) + HDR_THREAD_WORK + Hex(h.threadWork) + HDR_NONCE + Int(h.nonce)
      + HDR_HEIGHT + Int(h.height) + HDR_REPRESENTATION_COUNT + Int(h.representationCount) + HDR_END
  {
    TargetPartSplits(UpToTime(h) + Int(h.time), h);
    HeightPartSplits(UpToNonce(h) + Int(h.nonce), h);
    hide Hex, Int, TargetPart, HeightPart;
  }

  lemma MembersAre(h: Header)
    ensures var ms := Members(h);
      && |ms| == 8
      && ms[1] == Member("hash_list_root", Quoted(Hex(h.hashListRoot))) && ms[2] == Member("time", Int(h.time))
      && ms[3] == Member("target", Quoted(Hex(h.target))) && ms[4] == Member("thread_work", Quoted(Hex(h.threadWork)))
      && ms[5] == Member("nonce", Int(h.nonce)) && ms[6] == Member("height", Int(h.height))
      && ms[7] == Member("representation_count", Int(h.representationCount))
      && Json(h) == "{" + Joined(ms[..8]) + "}"
  {
    assert Members(h)[..8] == Members(h);
    hide Hex, Int, Joined, Member, Quoted;
  }

  lemma HashListRootIs()
    ensures HDR_HASH_LIST_ROOT == "\",\"" + "hash_list_root" + "\":\""
  {
  }

  lemma TimeIs()
    ensures HDR_TIME == "\",\"" + "time" + "\":"
  {
  }

  lemma TargetIs()
    ensures HDR_TARGET == ",\"" + "target" + "\":\""
  {
  }

  lemma ThreadWorkIs()
    ensures HDR_THREAD_WORK == "\",\"" + "thread_work" + "\":\""
  {
  }

  lemma NonceIs()
    ensures HDR_NONCE == "\",\"" + "nonce" + "\":"
  {
  }

  lemma HeightIs()
    ensures HDR_HEIGHT == ",\"" + "height" + "\":"
  {
  }

  lemma RepresentationCountIs()
    ensures HDR_REPRESENTATION_COUNT == ",\"" + "representation_count" + "\":"
  {
  }

  lemma HeadersAre()
    ensures HDR_HASH_LIST_ROOT == "\",\"" + "hash_list_root" + "\":\"" && HDR_TIME == "\",\"" + "time" + "\":"
    ensures HDR_TARGET == ",\"" + "target" + "\":\"" && HDR_THREAD_WORK == "\",\"" + "thread_work" + "\":\""
    ensures HDR_NONCE == "\",\"" + "nonce" + "\":" && HDR_HEIGHT == ",\"" + "height" + "\":"
    ensures HDR_REPRESENTATION_COUNT == ",\"" + "representation_count" + "\":" && HDR_END == "}"
  {
    EndIs();
    hide *;
    HashListRootIs();
    TimeIs();
    TargetIs();
    ThreadWorkIs();
    NonceIs();
    HeightIs();
    RepresentationCountIs();
  }

  lemma EndIs()
    ensures HDR_END == "}"
  {
  }

  /** The buffer's layout is the header's JSON text. */
  lemma LayoutIsJson(h: Header)
    ensures Layout(h) == Json(h)
  {
    hide *;
    var ms := Members(h);
    MembersAre(h);
    HeadersAre();
    FirstMember(h);
    NextMember(ms, 1);
    var s := HDR_PREVIOUS + Hex(h.previous);
    QuotedMember("{" + Joined(ms[..1]), s, "hash_list_root", Hex(h.hashListRoot), HDR_HASH_LIST_ROOT);
    s := s + HDR_HASH_LIST_ROOT + Hex(h.hashListRoot);
    NextMember(ms, 2);
    NumberAfterQuote("{" + Joined(ms[..2]), s, "time", Int(h.time), HDR_TIME);
    s := s + HDR_TIME + Int(h.time);
    NextMember(ms, 3);
    QuotedAfterNumber(s, "target", Hex(h.target), HDR_TARGET);
    s := s + HDR_TARGET + Hex(h.target);
    NextMember(ms, 4);
    QuotedMember("{" + Joined(ms[..4]), s, "thread_work", Hex(h.threadWork), HDR_THREAD_WORK);
    s := s + HDR_THREAD_WORK + Hex(h.threadWork);
    NextMember(ms, 5);
    NumberAfterQuote("{" + Joined(ms[..5]), s, "nonce", Int(h.nonce), HDR_NONCE);
    s := s + HDR_NONCE + Int(h.nonce);
    NextMember(ms, 6);
    NumberAfterNumber(s, "height", Int(h.height), HDR_HEIGHT);
    s := s + HDR_HEIGHT + Int(h.height);
    NextMember(ms, 7);
    NumberAfterNumber(s, "representation_count", Int(h.representationCount), HDR_REPRESENTATION_COUNT);
    LayoutSplits(h);
  }

  // ---------- the text determines the header ----------

  predicate IsDigit(c: char) {
    '0' <= c <= '9'
  }

  predicate AllDigits(s: string) {
    forall i :: 0 <= i < |s| ==> IsDigit(s[i])
  }

  function Value(s: string): nat
    requires AllDigits(s)
  {
    if s == [] then 0 else 10 * Value(s[..|s| - 1]) + (s[|s| - 1] - '0') as int
  }

  /** Digits without a leading zero (section 6 of RFC 8259) that read back as the number. */
  lemma {:induction false} DecimalReadsBack(n: nat)
    ensures AllDigits(Decimal(n)) && Value(Decimal(n)) == n
    ensures Decimal(n)[0] == '0' ==> n == 0 && |Decimal(n)| == 1
  {
    if n >= 10 {
      DecimalReadsBack(n / 10);
      assert Decimal(n)[..|Decimal(n)| - 1] == Decimal(n / 10);
    } else {
      assert Decimal(n) == [Digit(n)] && Decimal(n)[..0] == [];
    }
  }

  function Pow10(k: nat): nat {
    if k == 0 then 1 else 10 * Pow10(k - 1)
  }

  lemma {:induction false} DecimalLength(n: nat, k: nat)
    requires n < Pow10(k) && k > 0
    ensures |Decimal(n)| <= k
  {
    if n >= 10 {
      assert k > 1;
      DecimalLength(n / 10, k - 1);
    }
  }

  /** Non-negative headers fit the buffer. */
  lemma NonNegativeFits(h: Header)
    requires h.time >= 0 && h.nonce >= 0 && h.height >= 0 && h.representationCount >= 0
    ensures |Layout(h)| <= BUFFER_LENGTH
  {
    hide *;
    TenPowers();
    DecimalLength(h.time, 19);
    DecimalLength(h.nonce, 19);
    DecimalLength(h.height, 19);
    DecimalLength(h.representationCount, 10);
    IntIsDecimal(h.time);
    IntIsDecimal(h.nonce);
    IntIsDecimal(h.height);
    IntIsDecimal(h.representationCount);
    LayoutLength(h);
  }

  lemma TenPowers()
    ensures Pow10(19) == 10000000000000000000 && Pow10(10) == 10000000000
  {
    assert Pow10(5) == 100000 && Pow10(15) == 1000000000000000;
  }

  lemma IntIsDecimal(x: nat)
    ensures Int(x) == Decimal(x)
  {
  }

  lemma LayoutLength(h: Header)
    ensures |Layout(h)| == BUFFER_LENGTH - 3 * 19 - 10
                           + |Int(h.time)| + |Int(h.nonce)| + |Int(h.height)| + |Int(h.representationCount)|
  {
    hide Int;
  }

  /** A hexadecimal digit as the program's encoder writes it (section 8 of RFC 4648, in lower case). */
  predicate IsHexDigit(c: char) {
    '0' <= c <= '9' || 'a' <= c <= 'f'
  }

  function HexValue(c: char): nat
    requires IsHexDigit(c)
  {
    if c <= '9' then (c - '0') as int else 10 + (c - 'a') as int
  }

  predicate AllHexDigits(s: string) {
    forall i :: 0 <= i < |s| ==> IsHexDigit(s[i])
  }

  /** The number a text of hexadecimal digits stands for, the most significant digit first. */
  function HexNumber(s: string): nat
    requires AllHexDigits(s)
  {
    if s == [] then 0 else 16 * HexNumber(s[..|s| - 1]) + HexValue(s[|s| - 1])
  }

  /** Bytes are written as two hexadecimal digits each, and the text reads back as their big-endian number. */
  lemma {:induction false} HexReadsBack(b: seq<byte>)
    ensures |Hex(b)| == 2 * |b| && AllHexDigits(Hex(b)) && HexNumber(Hex(b)) == HistoryKeys.Value(b)
  {
    if b != [] {
      var front, x := b[..|b| - 1], b[|b| - 1];
      HexReadsBack(front);
      HexDigitReads(x / 16);
      HexDigitReads(x % 16);
      hide HexDigit, HexValue;
      HexNumberStep(Hex(front), HexDigit(x / 16));
      HexNumberStep(Hex(front) + [HexDigit(x / 16)], HexDigit(x % 16));
      assert Hex(b) == Hex(front) + [HexDigit(x / 16)] + [HexDigit(x % 16)];
    }
  }

  lemma HexNumberStep(s: string, c: char)
    requires AllHexDigits(s) && IsHexDigit(c)
    ensures AllHexDigits(s + [c]) && HexNumber(s + [c]) == 16 * HexNumber(s) + HexValue(c)
  {
    assert (s + [c])[..|s|] == s;
  }

  lemma HexDigitReads(d: nat)
    requires d < 16
    ensures IsHexDigit(HexDigit(d)) && HexValue(HexDigit(d)) == d
  {
  }

  /** A number is written with a minus sign exactly when it is negative, and its magnitude reads back. */
  lemma IntReadsBack(x: int)
    ensures Int(x)[0] == '-' <==> x < 0
    ensures x < 0 ==> AllDigits(Int(x)[1..]) && Value(Int(x)[1..]) == -x
    ensures x >= 0 ==> AllDigits(Int(x)) && Value(Int(x)) == x
  {
    DecimalReadsBack(if x < 0 then -x else x);
  }

  lemma HexDigitsDetermine(x: byte, y: byte)
    requires HexDigit(x / 16) == HexDigit(y / 16) && HexDigit(x % 16) == HexDigit(y % 16)
    ensures x == y
  {
    assert x / 16 == y / 16 && x % 16 == y % 16;
  }

  /** Equal texts whose first parts are of equal length agree part by part. */
  lemma PartsAgree(a: string, b: string, s: string, t: string)
    requires a + s == b + t && |a| == |b|
    ensures a == b && s == t
  {
    assert a == (a + s)[..|a|] && b == (b + t)[..|b|];
    assert s == (a + s)[|a|..] && t == (b + t)[|b|..];
  }

  lemma {:induction false} HexDetermines(a: seq<byte>, b: seq<byte>)
    requires |a| == |b| && Hex(a) == Hex(b)
    ensures a == b
  {
    if a != [] {
      hide HexDigit;
      var n := |a| - 1;
      var x, y := [HexDigit(a[n] / 16), HexDigit(a[n] % 16)], [HexDigit(b[n] / 16), HexDigit(b[n] % 16)];
      PartsAgree(Hex(a[..n]), Hex(b[..n]), x, y);
      HexDetermines(a[..n], b[..n]);
      assert x[0] == y[0] && x[1] == y[1];
      HexDigitsDetermine(a[n], b[n]);
      assert a == a[..n] + [a[n]] && b == b[..n] + [b[n]];
    }
  }

  lemma ShorterStops(a: string, b: string, s: string, t: string)
    requires a + s == b + t && |a| < |b| && s != []
    ensures b[|a|] == s[0]
  {
    assert (a + s)[|a|] == s[0] && (b + t)[|a|] == b[|a|];
  }

  /** A number ends where its digits end. */
  lemma NumberEnds(x: int, y: int, s: string, t: string)
    requires Int(x) + s == Int(y) + t && s != [] && t != []
    requires !IsDigit(s[0]) && !IsDigit(t[0])
    ensures x == y && s == t
  {
    var a, b := Int(x), Int(y);
    var dx, dy := if x < 0 then -x else x, if y < 0 then -y else y;
    DecimalReadsBack(dx);
    DecimalReadsBack(dy);
    assert (a + s)[0] == a[0] && (b + t)[0] == b[0];
    if |a| < |b| {
      ShorterStops(a, b, s, t);
    } else if |b| < |a| {
      ShorterStops(b, a, t, s);
    } else {
      PartsAgree(a, b, s, t);
      if x < 0 {
        assert a[1..] == Decimal(dx) && b[1..] == Decimal(dy);
      }
    }
  }

  lemma UpToTimeDetermines(a: Header, b: Header)
    requires UpToTime(a) == UpToTime(b)
    ensures a.previous == b.previous && a.hashListRoot == b.hashListRoot
  {
    hide Hex;
    PartsAgree(UpToRoot(a) + Hex(a.hashListRoot), UpToRoot(b) + Hex(b.hashListRoot), HDR_TIME, HDR_TIME);
    PartsAgree(UpToRoot(a), UpToRoot(b), Hex(a.hashListRoot), Hex(b.hashListRoot));
    PartsAgree(HDR_PREVIOUS + Hex(a.previous), HDR_PREVIOUS + Hex(b.previous), HDR_HASH_LIST_ROOT, HDR_HASH_LIST_ROOT);
    PartsAgree(HDR_PREVIOUS, HDR_PREVIOUS, Hex(a.previous), Hex(b.previous));
    HexDetermines(a.previous, b.previous);
    HexDetermines(a.hashListRoot, b.hashListRoot);
  }

  lemma TargetPartDetermines(a: Header, b: Header)
    requires TargetPart(a) == TargetPart(b)
    ensures a.target == b.target && a.threadWork == b.threadWork
  {
    hide Hex;
    var s, t := HDR_TARGET + Hex(a.target), HDR_TARGET + Hex(b.target);
    PartsAgree(s + HDR_THREAD_WORK + Hex(a.threadWork), t + HDR_THREAD_WORK + Hex(b.threadWork), HDR_NONCE, HDR_NONCE);
    PartsAgree(s + HDR_THREAD_WORK, t + HDR_THREAD_WORK, Hex(a.threadWork), Hex(b.threadWork));
    PartsAgree(s, t, HDR_THREAD_WORK, HDR_THREAD_WORK);
    PartsAgree(HDR_TARGET, HDR_TARGET, Hex(a.target), Hex(b.target));
    HexDetermines(a.target, b.target);
    HexDetermines(a.threadWork, b.threadWork);
  }

  /** The layout, read from the front. */
  function FromTime(h: Header): string {
    Int(h.time) + (TargetPart(h) + FromNonce(h))
  }

  function FromNonce(h: Header): string {
    Int(h.nonce) + (HDR_HEIGHT + FromHeight(h))
  }

  function FromHeight(h: Header): string {
    Int(h.height) + (HDR_REPRESENTATION_COUNT + (Int(h.representationCount) + HDR_END))
  }

  lemma LayoutFromFront(h: Header)
    ensures Layout(h) == UpToTime(h) + FromTime(h)
  {
    hide Hex, Int, UpToTime, TargetPart;
  }

  /** Two headers with the same JSON text are the same header: a header's hash input is injective. */
  lemma JsonDetermines(a: Header, b: Header)
    requires Json(a) == Json(b)
    ensures a == b
  {
    hide Int, Hex, UpToTime, TargetPart, Layout, Json;
    LayoutIsJson(a);
    LayoutIsJson(b);
    LayoutFromFront(a);
    LayoutFromFront(b);
    assert |UpToTime(a)| == |UpToTime(b)| && |TargetPart(a)| == |TargetPart(b)| by {
      PartLengths(a);
      PartLengths(b);
    }
    PartsAgree(UpToTime(a), UpToTime(b), FromTime(a), FromTime(b));
    UpToTimeDetermines(a, b);
    StartsPlain(a);
    StartsPlain(b);
    NumberEnds(a.time, b.time, TargetPart(a) + FromNonce(a), TargetPart(b) + FromNonce(b));
    PartsAgree(TargetPart(a), TargetPart(b), FromNonce(a), FromNonce(b));
    TargetPartDetermines(a, b);
    NumberEnds(a.nonce, b.nonce, HDR_HEIGHT + FromHeight(a), HDR_HEIGHT + FromHeight(b));
    PartsAgree(HDR_HEIGHT, HDR_HEIGHT, FromHeight(a), FromHeight(b));
    var x, y := Int(a.representationCount) + HDR_END, Int(b.representationCount) + HDR_END;
    NumberEnds(a.height, b.height, HDR_REPRESENTATION_COUNT + x, HDR_REPRESENTATION_COUNT + y);
    PartsAgree(HDR_REPRESENTATION_COUNT, HDR_REPRESENTATION_COUNT, x, y);
    NumberEnds(a.representationCount, b.representationCount, HDR_END, HDR_END);
  }

  lemma PartLengths(h: Header)
    ensures |UpToTime(h)| == |HDR_PREVIOUS| + 64 + |HDR_HASH_LIST_ROOT| + 64 + |HDR_TIME|
    ensures |TargetPart(h)| == |HDR_TARGET| + 64 + |HDR_THREAD_WORK| + 64 + |HDR_NONCE|
  {
  }

  lemma StartsPlain(h: Header)
    ensures TargetPart(h) != [] && TargetPart(h)[0] == ','
  {
    assert TargetPart(h)[0] == HDR_TARGET[0];
  }
}
