/** A plot ID's 32 bytes, and the numbers written to and read from them. */
module PlotIDs {
  import opened Plots
  import opened HistoryKeys
  import Consensus

  /** The shortest big-endian form of a number. */
  function ShortBytes(n: nat): (b: Bytes)
    decreases n
  {
    if n == 0 then [] else ShortBytes(n / 256) + [n % 256]
  }

  /** The short form reads back, and is within w bytes exactly for numbers below 256^w. */
  lemma {:induction false} ShortBytesReadBack(n: nat, w: nat)
    ensures Value(ShortBytes(n)) == n && (|ShortBytes(n)| <= w <==> n < Pow256(w))
    decreases n
  {
    if n > 0 {
      var b := ShortBytes(n);
      ShortBytesReadBack(n / 256, if w > 0 then w - 1 else 0);
      assert b[..|b| - 1] == ShortBytes(n / 256);
    }
  }

  /** Leading zeros do not count. */
  lemma {:induction false} LeadingZeros(zeros: Bytes, b: Bytes)
    requires forall i :: 0 <= i < |zeros| ==> zeros[i] == 0
    ensures Value(zeros + b) == Value(b)
  {
    if b != [] {
      LeadingZeros(zeros, b[..|b| - 1]);
      assert (zeros + b)[..|zeros + b| - 1] == zeros + b[..|b| - 1];
    } else if zeros != [] {
      LeadingZeros(zeros[..|zeros| - 1], []);
      assert zeros + [] == zeros && zeros[..|zeros| - 1] + [] == zeros[..|zeros| - 1];
    }
  }

  lemma {:induction false} Pow256IsShift(w: nat)
    ensures Pow256(w + 8) == 0x1_0000_0000_0000_0000 * Pow256(w)
  {
    assert Pow256(w + 8) == 256 * Pow256(w + 7) && Pow256(w + 7) == 256 * Pow256(w + 6);
    assert Pow256(w + 6) == 256 * Pow256(w + 5) && Pow256(w + 5) == 256 * Pow256(w + 4);
    assert Pow256(w + 4) == 256 * Pow256(w + 3) && Pow256(w + 3) == 256 * Pow256(w + 2);
    assert Pow256(w + 2) == 256 * Pow256(w + 1) && Pow256(w + 1) == 256 * Pow256(w);
  }

  lemma ThirtyTwoBytes()
    ensures Pow256(32) == TWO_256
  {
    Widths();
    Pow256IsShift(8);
    Pow256IsShift(16);
    Pow256IsShift(24);
  }

  class PlotIDBytes {
    const id: array<byte>

    constructor ()
      ensures id.Length == 32 && fresh(id)
    {
      id := new byte[32](_ => 0);
    }

    function GetBigInt(): nat
      reads id
    {
      Value(id[..])
    }

    /** Writes a number right-aligned over zeros; false stands for the panic when it has over 32 bytes. */
    method SetBigInt(i: int) returns (ok: bool)
      requires id.Length == 32
      modifies id
      ensures ok <==> Consensus.SetBigInt(i).Some?
      ensures ok ==> GetBigInt() == Consensus.SetBigInt(i).value
      ensures !ok ==> id[..] == old(id[..])
    {
      hide Value;
      var intBytes := ShortBytes(if i < 0 then -i else i);
      ShortBytesReadBack(if i < 0 then -i else i, 32);
      ThirtyTwoBytes();
      if |intBytes| > 32 {
        return false;
      }
      for k := 0 to 32
        invariant forall j :: 0 <= j < k ==> id[j] == 0
      {
        id[k] := 0;
      }
      ghost var zeros := id[..32 - |intBytes|];
      Copy(intBytes);
      LeadingZeros(zeros, intBytes);
      return true;
    }

    /** Writes bytes over the end. */
    method Copy(bytes: Bytes)
      requires id.Length == 32 && |bytes| <= 32
      modifies id
      ensures id[..] == old(id[..32 - |bytes|]) + bytes
    {
      var off := 32 - |bytes|;
      ghost var before := id[..off];
      for k := 0 to |bytes|
        invariant id[..off] == before && id[off..off + k] == bytes[..k]
      {
        id[off + k] := bytes[k];
      }
      assert bytes[..|bytes|] == bytes;
    }
  }
}
