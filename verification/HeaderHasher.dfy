/** The hasher that patches the serialised header in place between scribing attempts. */
module HeaderHasher {
  import opened Plots
  import opened HeaderText

  /** Text that agrees with `was` from p on, and has a known part there, is known up to the part's end. */
  lemma StillThere(buf: string, was: string, p: nat, part: string)
    requires p + |part| <= |buf| == |was| && buf[p..] == was[p..] && was[p..p + |part|] == part
    ensures buf[..p + |part|] == buf[..p] + part && buf[p + |part|..] == was[p + |part|..]
  {
    var q := p + |part|;
    assert buf[p..q] == buf[p..][..|part|] == was[p..][..|part|] == was[p..q];
    assert buf[q..] == buf[p..][|part|..] == was[p..][|part|..] == was[q..];
    assert buf[..q] == buf[..p] + buf[p..q];
  }

  lemma Slice(was: string, x: string, part: string)
    requires x + part <= was
    ensures was[|x|..|x| + |part|] == part
  {
    assert was[..|x + part|] == x + part;
  }

  lemma Lengths(h: Header)
    ensures |UpToTime(h)| + |Int(h.time)| + |TargetPart(h)| == |UpToNonce(h)|
    ensures |UpToNonce(h)| + |Int(h.nonce)| + |HeightPart(h)| == |UpToCount(h)|
    ensures |UpToCount(h)| + |Int(h.representationCount)| == |UpToEnd(h)| == |Layout(h)| - |HDR_END|
    ensures |UpToRoot(h)| + 64 + |HDR_TIME| == |UpToTime(h)|
    ensures |UpToRoot(h)| == |HDR_PREVIOUS| + 64 + |HDR_HASH_LIST_ROOT|
  {
    hide Int, TargetPart, HeightPart;
  }

  /** Where the parts of a layout lie in a text that starts with it. */
  lemma PartsOf(was: string, h: Header)
    requires Layout(h) <= was
    ensures UpToTime(h) + Int(h.time) <= was && UpToTime(h) + Int(h.time) + TargetPart(h) <= was
    ensures UpToNonce(h) + Int(h.nonce) <= was && UpToNonce(h) + Int(h.nonce) + HeightPart(h) <= was
    ensures UpToCount(h) + Int(h.representationCount) <= was
    ensures UpToCount(h) + Int(h.representationCount) + HDR_END <= was
    ensures UpToRoot(h) + Hex(h.hashListRoot) + HDR_TIME <= was
  {
    hide UpToRoot, Hex, Int, TargetPart, HeightPart;
  }

  lemma RootLies(was: string, h: Header)
    requires Layout(h) <= was
    ensures UpToRoot(h) <= was && UpToRoot(h) + Hex(h.hashListRoot) <= was
  {
    PartsOf(was, h);
    hide UpToRoot, Hex, Layout;
  }

  /** The fields that stay the same while a plot is being scribed. */
  predicate SameJob(a: Header, b: Header) {
    a.previous == b.previous && a.target == b.target && a.threadWork == b.threadWork && a.height == b.height
  }

  lemma SameJobParts(a: Header, b: Header)
    requires SameJob(a, b)
    ensures UpToRoot(a) == UpToRoot(b) && TargetPart(a) == TargetPart(b) && HeightPart(a) == HeightPart(b)
    ensures |UpToTime(a)| == |UpToTime(b)|
  {
  }

  /** The text is `header`'s up to `end`, and what it was from there on. */
  predicate Patched(buf: string, was: string, prefix: string) {
    |buf| == |was| && prefix <= buf && buf[|prefix|..] == was[|prefix|..]
  }

  /** A part that is already there need not be written. */
  lemma Skip(buf: string, was: string, prefix: string, x: string, part: string)
    requires Patched(buf, was, prefix) && x + part <= was && |x| == |prefix|
    ensures Patched(buf, was, prefix + part)
  {
    Slice(was, x, part);
    StillThere(buf, was, |x|, part);
    assert buf[..|prefix|] == prefix;
    assert buf[..|prefix + part|] == prefix + part;
  }

  lemma StartsPatched(was: string)
    ensures Patched(was, was, "")
  {
  }

  lemma TargetPartLength(h: Header)
    ensures |TargetPart(h)| == |HDR_TARGET| + 64 + |HDR_THREAD_WORK| + 64 + |HDR_NONCE|
  {
  }

  lemma HeightPartLength(h: Header)
    ensures |HeightPart(h)| == |HDR_HEIGHT| + |Int(h.height)| + |HDR_REPRESENTATION_COUNT|
  {
  }

  lemma UpToRootMeans(h: Header)
    ensures UpToRoot(h) == "" + HDR_PREVIOUS + Hex(h.previous) + HDR_HASH_LIST_ROOT
  {
    assert "" + HDR_PREVIOUS == HDR_PREVIOUS;
  }

  lemma UpToEndIs(h: Header)
    ensures UpToCount(h) + Int(h.representationCount) == UpToEnd(h) && Layout(h) == UpToEnd(h) + HDR_END
  {
  }

  lemma UpToCountMeans(h: Header)
    ensures UpToCount(h) == UpToNonce(h) + Int(h.nonce) + HeightPart(h)
  {
  }

  lemma UpToTimeMeans(h: Header)
    ensures UpToTime(h) == UpToRoot(h) + Hex(h.hashListRoot) + HDR_TIME
  {
  }

  lemma PatchedNowhere(was: string, x: string)
    requires x <= was
    ensures Patched(was, was, x)
  {
  }

  lemma UpToNonceMeans(h: Header)
    ensures UpToNonce(h) == UpToTime(h) + Int(h.time) + TargetPart(h)
  {
  }

  class PlotHeaderHasher {
    var previousHashListRoot: ID
    var previousTime: int64
    var previousNonce: int64
    var previousRepresentationCount: int32

    var hashListRootOffset: int
    var timeOffset: int
    var nonceOffset: int
    var representationCountOffset: int

    var timeLen: int
    var nonceLen: int
    var txCountLen: int

    var initialized: bool
    var bufLen: int
    const buffer: array<char>

    /** The header last laid out. */
    ghost var laid: Header

    constructor ()
      ensures Valid() && !initialized && fresh(buffer)
    {
      buffer := new char[BUFFER_LENGTH];
      initialized := false;
      previousHashListRoot, previousTime, previousNonce, previousRepresentationCount := seq(32, _ => 0), 0, 0, 0;
      hashListRootOffset, timeOffset, nonceOffset, representationCountOffset := 0, 0, 0, 0;
      timeLen, nonceLen, txCountLen, bufLen := 0, 0, 0, 0;
    }

    ghost predicate Valid()
      reads this, buffer
    {
      && buffer.Length == BUFFER_LENGTH
      && (initialized ==> Tracks(laid) && bufLen == |Layout(laid)| && Layout(laid) <= buffer[..])
    }

    /** Offsets, lengths and previous values are those of a header. */
    ghost predicate Tracks(h: Header)
      reads this
    {
      && previousHashListRoot == h.hashListRoot && previousTime == h.time
      && previousNonce == h.nonce && previousRepresentationCount == h.representationCount
      && hashListRootOffset == |UpToRoot(h)| && timeOffset == |UpToTime(h)|
      && nonceOffset == |UpToNonce(h)| && representationCountOffset == |UpToCount(h)|
      && timeLen == |Int(h.time)| && nonceLen == |Int(h.nonce)| && txCountLen == |Int(h.representationCount)|
    }

    lemma TracksMeans(h: Header)
      requires Tracks(h)
      ensures previousHashListRoot == h.hashListRoot && previousTime == h.time
      ensures previousNonce == h.nonce && previousRepresentationCount == h.representationCount
      ensures hashListRootOffset == |UpToRoot(h)| && timeOffset == |UpToTime(h)|
      ensures nonceOffset == |UpToNonce(h)| && representationCountOffset == |UpToCount(h)|
      ensures timeLen == |Int(h.time)| && nonceLen == |Int(h.nonce)| && txCountLen == |Int(h.representationCount)|
    {
    }

    lemma ValidMeans()
      requires Valid()
      ensures buffer.Length == BUFFER_LENGTH
      ensures initialized ==> Tracks(laid) && bufLen == |Layout(laid)| && Layout(laid) <= buffer[..]
      ensures initialized ==> buffer[..|Layout(laid)|] == Layout(laid)
    {
    }

    lemma ValidFromParts(header: Header, was: string)
      requires buffer.Length == BUFFER_LENGTH && |was| == BUFFER_LENGTH
      requires Patched(buffer[..], was, Layout(header)) && laid == header && bufLen == |Layout(header)|
      requires previousHashListRoot == header.hashListRoot && previousTime == header.time
      requires previousNonce == header.nonce && previousRepresentationCount == header.representationCount
      requires hashListRootOffset == |UpToRoot(header)| && timeOffset == |UpToTime(header)|
      requires nonceOffset == |UpToNonce(header)| && representationCountOffset == |UpToCount(header)|
      requires timeLen == |Int(header.time)| && nonceLen == |Int(header.nonce)|
      requires txCountLen == |Int(header.representationCount)|
      ensures Valid()
    {
    }

    /** copy, append, hex.Encode and AppendInt: text written over the buffer, within its bounds. */
    method Write(off: nat, text: string, ghost was: string, ghost prefix: string)
      requires off + |text| <= buffer.Length
      requires Patched(buffer[..], was, prefix) && off == |prefix|
      modifies buffer
      ensures Patched(buffer[..], was, prefix + text)
    {
      ghost var before := buffer[..];
      for i := 0 to |text|
        invariant buffer[..off] == before[..off]
        invariant buffer[off..off + i] == text[..i]
        invariant buffer[off + i..] == before[off + i..]
      {
        buffer[off + i] := text[i];
      }
      Written(buffer[..], before, was, prefix, text);
    }

    /** The part before the target. */
    method InitFront(header: Header, ghost was: string) returns (len: nat)
      requires buffer.Length == BUFFER_LENGTH && |Layout(header)| <= BUFFER_LENGTH && Patched(buffer[..], was, "")
      modifies this`previousHashListRoot, this`hashListRootOffset, this`previousTime,
               this`timeOffset, this`timeLen, buffer
      ensures previousHashListRoot == header.hashListRoot && hashListRootOffset == |UpToRoot(header)|
      ensures previousTime == header.time && timeOffset == |UpToTime(header)| && timeLen == |Int(header.time)|
      ensures len == timeOffset + timeLen && Patched(buffer[..], was, UpToTime(header) + Int(header.time))
    {
      hide *;
      Lengths(header);
      UpToRootMeans(header);
      UpToTimeMeans(header);

      // previous
      Write(0, HDR_PREVIOUS, was, "");
      len := |HDR_PREVIOUS|;
      Write(len, Hex(header.previous), was, "" + HDR_PREVIOUS);
      len := len + 64;

      // hash_list_root
      previousHashListRoot := header.hashListRoot;
      Write(len, HDR_HASH_LIST_ROOT, was, "" + HDR_PREVIOUS + Hex(header.previous));
      len := len + |HDR_HASH_LIST_ROOT|;
      hashListRootOffset := len;
      Write(len, Hex(header.hashListRoot), was, UpToRoot(header));
      len := len + 64;

      // time
      previousTime := header.time;
      Write(len, HDR_TIME, was, UpToRoot(header) + Hex(header.hashListRoot));
      len := len + |HDR_TIME|;
      timeOffset := len;
      Write(len, Int(header.time), was, UpToTime(header));
      timeLen := |Int(header.time)|;
      len := len + timeLen;
    }

    method InitBuffer(header: Header)
      requires buffer.Length == BUFFER_LENGTH && |Layout(header)| <= BUFFER_LENGTH
      modifies this, buffer
      ensures Valid() && initialized && laid == header
    {
      hide *;
      Lengths(header);
      UpToNonceMeans(header);
      UpToCountMeans(header);
      UpToEndIs(header);
      ghost var was := buffer[..];
      StartsPatched(was);
      var len := InitFront(header, was);

      // target, thread_work, start of nonce
      WriteTargetPart(header, len, was, UpToTime(header) + Int(header.time));
      len := len + |TargetPart(header)|;

      // nonce
      previousNonce := header.nonce;
      nonceOffset := len;
      Write(len, Int(header.nonce), was, UpToNonce(header));
      nonceLen := |Int(header.nonce)|;
      len := len + nonceLen;

      // height, start of representation_count
      WriteHeightPart(header, len, was, UpToNonce(header) + Int(header.nonce));
      len := len + |HeightPart(header)|;

      // representation_count
      previousRepresentationCount := header.representationCount;
      representationCountOffset := len;
      Write(len, Int(header.representationCount), was, UpToCount(header));
      txCountLen := |Int(header.representationCount)|;
      len := len + txCountLen;

      Write(len, HDR_END, was, UpToEnd(header));
      bufLen := len + |HDR_END|;
      initialized := true;
      laid := header;
      ValidFromParts(header, was);
    }

    method WriteTargetPart(header: Header, off: nat, ghost was: string, ghost prefix: string)
      requires off + |TargetPart(header)| <= buffer.Length
      requires Patched(buffer[..], was, prefix) && off == |prefix|
      modifies buffer
      ensures Patched(buffer[..], was, prefix + TargetPart(header))
    {
      hide *;
      var len := off;
      ghost var s := prefix;
      TargetPartSplits("", header);
      TargetPartSplits(prefix, header);
      TargetPartLength(header);
      Write(len, HDR_TARGET, was, s);
      s, len := s + HDR_TARGET, len + |HDR_TARGET|;
      Write(len, Hex(header.target), was, s);
      s, len := s + Hex(header.target), len + 64;
      Write(len, HDR_THREAD_WORK, was, s);
      s, len := s + HDR_THREAD_WORK, len + |HDR_THREAD_WORK|;
      Write(len, Hex(header.threadWork), was, s);
      s, len := s + Hex(header.threadWork), len + 64;
      Write(len, HDR_NONCE, was, s);
    }

    method WriteHeightPart(header: Header, off: nat, ghost was: string, ghost prefix: string)
      requires off + |HeightPart(header)| <= buffer.Length
      requires Patched(buffer[..], was, prefix) && off == |prefix|
      modifies buffer
      ensures Patched(buffer[..], was, prefix + HeightPart(header))
    {
      hide *;
      var len := off;
      ghost var s := prefix;
      HeightPartSplits(prefix, header);
      HeightPartLength(header);
      Write(len, HDR_HEIGHT, was, s);
      s, len := s + HDR_HEIGHT, len + |HDR_HEIGHT|;
      Write(len, Int(header.height), was, s);
      s, len := s + Int(header.height), len + |Int(header.height)|;
      Write(len, HDR_REPRESENTATION_COUNT, was, s);
    }

    /** The time, and when its length changes everything up to the nonce. */
    method UpdateTime(header: Header, ghost was: string) returns (offset: int)
      requires buffer.Length == BUFFER_LENGTH && |Layout(header)| <= BUFFER_LENGTH
      requires Layout(laid) <= was && SameJob(laid, header)
      requires timeOffset == |UpToTime(laid)| && timeLen == |Int(laid.time)| && previousTime == laid.time
      requires Patched(buffer[..], was, UpToTime(header))
      modifies this`previousTime, this`timeLen, buffer
      ensures previousTime == header.time && timeLen == |Int(header.time)|
      ensures offset == |UpToNonce(header)| - |UpToNonce(laid)|
      ensures Patched(buffer[..], was, UpToNonce(header))
    {
      hide *;
      PartsOf(was, laid);
      Lengths(laid);
      Lengths(header);
      SameJobParts(laid, header);
      UpToNonceMeans(header);
      offset := 0;
      ghost var prefix := UpToTime(header);
      if previousTime != header.time {
        previousTime := header.time;
        var len := timeOffset;
        Write(len, Int(header.time), was, prefix);
        var newLen := |Int(header.time)|;
        len := len + newLen;
        offset := newLen - timeLen;
        timeLen := newLen;
        if offset != 0 {
          WriteTargetPart(header, len, was, prefix + Int(header.time));
        } else {
          Skip(buffer[..], was, prefix + Int(header.time), UpToTime(laid) + Int(laid.time), TargetPart(header));
        }
      } else {
        Skip(buffer[..], was, prefix, UpToTime(laid), Int(header.time));
        Skip(buffer[..], was, prefix + Int(header.time), UpToTime(laid) + Int(laid.time), TargetPart(header));
      }
    }

    /** The nonce, and when anything moved everything up to the count. */
    method UpdateNonce(header: Header, shift: int, ghost was: string) returns (offset: int)
      requires buffer.Length == BUFFER_LENGTH && |Layout(header)| <= BUFFER_LENGTH
      requires Layout(laid) <= was && SameJob(laid, header)
      requires nonceOffset == |UpToNonce(laid)| && nonceLen == |Int(laid.nonce)| && previousNonce == laid.nonce
      requires shift == |UpToNonce(header)| - |UpToNonce(laid)| && Patched(buffer[..], was, UpToNonce(header))
      modifies this`previousNonce, this`nonceOffset, this`nonceLen, buffer
      ensures previousNonce == header.nonce && nonceOffset == |UpToNonce(header)| && nonceLen == |Int(header.nonce)|
      ensures offset == |UpToCount(header)| - |UpToCount(laid)|
      ensures Patched(buffer[..], was, UpToCount(header))
    {
      hide *;
      PartsOf(was, laid);
      Lengths(laid);
      Lengths(header);
      SameJobParts(laid, header);
      UpToCountMeans(header);
      offset := shift;
      ghost var prefix := UpToNonce(header);
      if shift != 0 || previousNonce != header.nonce {
        previousNonce := header.nonce;
        nonceOffset := nonceOffset + shift;
        var len := nonceOffset;
        Write(len, Int(header.nonce), was, prefix);
        var newLen := |Int(header.nonce)|;
        offset := offset + newLen - nonceLen;
        nonceLen := newLen;
        if offset != 0 {
          WriteHeightPart(header, len + newLen, was, prefix + Int(header.nonce));
        } else {
          Skip(buffer[..], was, prefix + Int(header.nonce), UpToNonce(laid) + Int(laid.nonce), HeightPart(header));
        }
      } else {
        Skip(buffer[..], was, prefix, UpToNonce(laid), Int(header.nonce));
        Skip(buffer[..], was, prefix + Int(header.nonce), UpToNonce(laid) + Int(laid.nonce), HeightPart(header));
      }
    }

    /** The count, and when anything moved the closing brace. */
    method UpdateCount(header: Header, shift: int, ghost was: string) returns (offset: int)
      requires buffer.Length == BUFFER_LENGTH && |Layout(header)| <= BUFFER_LENGTH && Layout(laid) <= was
      requires representationCountOffset == |UpToCount(laid)| && txCountLen == |Int(laid.representationCount)|
      requires previousRepresentationCount == laid.representationCount
      requires shift == |UpToCount(header)| - |UpToCount(laid)| && Patched(buffer[..], was, UpToCount(header))
      modifies this`previousRepresentationCount, this`representationCountOffset, this`txCountLen, buffer
      ensures previousRepresentationCount == header.representationCount
      ensures representationCountOffset == |UpToCount(header)| && txCountLen == |Int(header.representationCount)|
      ensures offset == |Layout(header)| - |Layout(laid)|
      ensures Patched(buffer[..], was, Layout(header))
    {
      hide *;
      PartsOf(was, laid);
      Lengths(laid);
      Lengths(header);
      UpToEndIs(header);
      offset := shift;
      ghost var prefix := UpToCount(header);
      if shift != 0 || previousRepresentationCount != header.representationCount {
        previousRepresentationCount := header.representationCount;
        representationCountOffset := representationCountOffset + shift;
        var len := representationCountOffset;
        Write(len, Int(header.representationCount), was, prefix);
        var newLen := |Int(header.representationCount)|;
        offset := offset + newLen - txCountLen;
        txCountLen := newLen;
        if offset != 0 {
          Write(len + newLen, HDR_END, was, prefix + Int(header.representationCount));
        } else {
          Skip(buffer[..], was, prefix + Int(header.representationCount),
               UpToCount(laid) + Int(laid.representationCount), HDR_END);
        }
      } else {
        Skip(buffer[..], was, prefix, UpToCount(laid), Int(header.representationCount));
        Skip(buffer[..], was, prefix + Int(header.representationCount),
             UpToCount(laid) + Int(laid.representationCount), HDR_END);
      }
    }

    /** The hash list root, when it changed. */
    method UpdateRoot(header: Header, ghost was: string)
      requires buffer.Length == BUFFER_LENGTH && |Layout(header)| <= BUFFER_LENGTH
      requires Layout(laid) <= was && SameJob(laid, header) && was == buffer[..]
      requires hashListRootOffset == |UpToRoot(laid)| && previousHashListRoot == laid.hashListRoot
      modifies this`previousHashListRoot, buffer
      ensures previousHashListRoot == header.hashListRoot && Patched(buffer[..], was, UpToTime(header))
    {
      hide *;
      PartsOf(was, laid);
      SameJobParts(laid, header);
      Lengths(laid);
      Lengths(header);
      UpToTimeMeans(header);
      RootLies(was, laid);
      PatchedNowhere(was, UpToRoot(laid));
      ghost var root := UpToRoot(header);
      if previousHashListRoot != header.hashListRoot {
        previousHashListRoot := header.hashListRoot;
        Write(hashListRootOffset, Hex(header.hashListRoot), was, root);
      } else {
        Skip(buffer[..], was, root, UpToRoot(laid), Hex(header.hashListRoot));
      }
      Skip(buffer[..], was, root + Hex(header.hashListRoot), UpToRoot(laid) + Hex(laid.hashListRoot), HDR_TIME);
    }

    /** Patches what changed since the last header of the job. */
    method Patch(header: Header)
      requires Valid() && initialized && SameJob(laid, header) && |Layout(header)| <= BUFFER_LENGTH
      modifies this, buffer
      ensures Valid() && initialized && laid == header
    {
      hide *;
      ValidMeans();
      TracksMeans(laid);
      SameJobParts(laid, header);
      Lengths(laid);
      Lengths(header);
      ghost var was := buffer[..];
      UpdateRoot(header, was);
      var offset := UpdateTime(header, was);
      offset := UpdateNonce(header, offset, was);
      offset := UpdateCount(header, offset, was);
      bufLen := bufLen + offset;
      laid := header;
      ValidFromParts(header, was);
    }

    /**
     * Brings the buffer up to date with a header of the same job and returns the text that is hashed:
     * byte for byte the header's JSON. The only demand on the header is that its text fits the buffer.
     */
    method Update(header: Header) returns (hashed: string)
      requires Valid() && (initialized ==> SameJob(laid, header)) && |Layout(header)| <= BUFFER_LENGTH
      modifies this, buffer
      ensures Valid() && initialized && laid == header
      ensures hashed == buffer[..bufLen] == Json(header)
    {
      hide *;
      ValidMeans();
      if !initialized {
        InitBuffer(header);
      } else {
        Patch(header);
      }
      ValidMeans();
      LayoutIsJson(header);
      hashed := buffer[..bufLen];
    }
  }

  lemma Written(buf: string, before: string, was: string, prefix: string, text: string)
    requires |buf| == |before| && |prefix| + |text| <= |buf|
    requires Patched(before, was, prefix)
    requires buf[..|prefix|] == before[..|prefix|] && buf[|prefix|..|prefix| + |text|] == text
    requires buf[|prefix| + |text|..] == before[|prefix| + |text|..]
    ensures Patched(buf, was, prefix + text)
  {
    var p, q := |prefix|, |prefix| + |text|;
    assert buf[..q] == buf[..p] + buf[p..q];
    assert buf[..q] == prefix + text;
    assert before[q..] == before[p..][|text|..] == was[p..][|text|..] == was[q..];
  }
}
