/** Whether a digest starts with so many zero bits, byte by byte and as one big-endian number. */
module LeadingZeros {
  import opened Arithmetic

  newtype byte = x: int | 0 <= x < 256

  function Pow256(n: nat): (p: nat)
    ensures p >= 1
  {
    if n == 0 then 1 else 256 * Pow256(n - 1)
  }

  /** The number the bytes are, most significant first. */
  function BigEndian(bytes: seq<byte>): nat {
    if bytes == [] then 0 else bytes[0] as nat * Pow256(|bytes| - 1) + BigEndian(bytes[1..])
  }

  /** The byte whose top `bits` bits are set; the shift may run past the byte, where no byte has bits. */
  function Mask(bits: nat): bv32
    requires 1 <= bits <= 7
  {
    0xff << (8 - bits)
  }

  /** The bits of a byte that the mask leaves alone. */
  function Rest(bits: nat): bv32
    requires 1 <= bits <= 7
  {
    1 << (8 - bits)
  }

  lemma MaskLeaves(x: bv32, bits: nat)
    requires 1 <= bits <= 7 && x < 256
    ensures x & Mask(bits) == 0 <==> x < Rest(bits)
  {
    match bits
    case 1 => assert Mask(1) == 0x7f80 && Rest(1) == 128;
    case 2 => assert Mask(2) == 0x3fc0 && Rest(2) == 64;
    case 3 => assert Mask(3) == 0x1fe0 && Rest(3) == 32;
    case 4 => assert Mask(4) == 0xff0 && Rest(4) == 16;
    case 5 => assert Mask(5) == 0x7f8 && Rest(5) == 8;
    case 6 => assert Mask(6) == 0x3fc && Rest(6) == 4;
    case 7 => assert Mask(7) == 0x1fe && Rest(7) == 2;
  }

  lemma RestIsPower(b: byte, bits: nat)
    requires 1 <= bits <= 7
    ensures b as bv32 < Rest(bits) <==> b as nat < Pow2(8 - bits)
  {
    SmallPowers();
    match bits
    case 1 => assert Rest(1) == 128;
    case 2 => assert Rest(2) == 64;
    case 3 => assert Rest(3) == 32;
    case 4 => assert Rest(4) == 16;
    case 5 => assert Rest(5) == 8;
    case 6 => assert Rest(6) == 4;
    case 7 => assert Rest(7) == 2;
  }

  lemma ByteBits(b: byte)
    ensures b as bv32 < 256
  {
  }

  lemma MaskTest(b: byte, bits: nat)
    requires 1 <= bits <= 7
    ensures (b as bv32) & Mask(bits) == 0 <==> b as nat < Pow2(8 - bits)
  {
    ByteBits(b);
    MaskLeaves(b as bv32, bits);
    RestIsPower(b, bits);
  }

  lemma SmallPowers()
    ensures Pow2(0) == 1 && Pow2(1) == 2 && Pow2(2) == 4 && Pow2(3) == 8 && Pow2(4) == 16
    ensures Pow2(5) == 32 && Pow2(6) == 64 && Pow2(7) == 128 && Pow2(8) == 256
  {
    assert Pow2(4) == 16;
    assert Pow2(6) == 64;
  }

  lemma {:induction false} PowersMultiply(m: nat, r: nat)
    ensures Pow2(8 * m + r) == Pow2(r) * Pow256(m)
  {
    if m == 0 {
      assert Pow256(0) == 1;
    } else {
      PowersMultiply(m - 1, r);
      EightMore(8 * (m - 1) + r);
      assert 8 * (m - 1) + r + 8 == 8 * m + r;
      assert Pow256(m) == 256 * Pow256(m - 1);
      Rearranged(Pow2(r), Pow256(m - 1));
    }
  }

  lemma Rearranged(a: int, b: int)
    ensures 256 * (a * b) == a * (256 * b)
  {
  }

  lemma EightMore(n: nat)
    ensures Pow2(n + 8) == 256 * Pow2(n)
  {
    assert Pow2(n + 2) == 4 * Pow2(n);
    assert Pow2(n + 4) == 4 * Pow2(n + 2);
    assert Pow2(n + 6) == 4 * Pow2(n + 4);
  }

  lemma {:induction false} BigEndianFits(bytes: seq<byte>)
    ensures BigEndian(bytes) < Pow256(|bytes|)
  {
    if bytes != [] {
      BigEndianFits(bytes[1..]);
      MulOrder(bytes[0] as int, 255, Pow256(|bytes| - 1));
    }
  }

  /** Zero bytes in front change nothing; a byte that is not zero among the first `k` makes the number large. */
  lemma {:induction false} LeadingBytes(bytes: seq<byte>, k: nat)
    requires k <= |bytes|
    ensures (forall i :: 0 <= i < k ==> bytes[i] == 0) ==> BigEndian(bytes) == BigEndian(bytes[k..])
    ensures (exists i :: 0 <= i < k && bytes[i] != 0) ==> BigEndian(bytes) >= Pow256(|bytes| - k)
    decreases k
  {
    if k == 0 {
      assert bytes[0..] == bytes;
    } else if bytes[0] == 0 {
      LeadingBytes(bytes[1..], k - 1);
      assert bytes[1..][k - 1..] == bytes[k..];
      assert BigEndian(bytes) == BigEndian(bytes[1..]);
      if i :| 0 <= i < k && bytes[i] != 0 { assert bytes[1..][i - 1] != 0; }
      if forall i :: 0 <= i < k ==> bytes[i] == 0 {
        assert forall i :: 0 <= i < k - 1 ==> bytes[1..][i] == bytes[i + 1];
      }
    } else {
      MulOrder(1, bytes[0] as int, Pow256(|bytes| - 1));
      Pow256Grows(|bytes| - k, |bytes| - 1);
    }
  }

  lemma {:induction false} Pow256Grows(m: nat, n: nat)
    requires m <= n
    ensures Pow256(m) <= Pow256(n)
  {
    if m < n { Pow256Grows(m, n - 1); }
  }

  /** The first byte decides whether a number is below a multiple of its own weight. */
  lemma FirstByteDecides(bytes: seq<byte>, t: nat)
    requires bytes != []
    ensures bytes[0] as nat < t <==> BigEndian(bytes) < t * Pow256(|bytes| - 1)
  {
    var w := Pow256(|bytes| - 1);
    var b := bytes[0] as int;
    BigEndianFits(bytes[1..]);
    if b < t {
      MulOrder(b + 1, t, w);
      Distribute(b, 1, w);
    } else {
      MulOrder(t, b, w);
    }
  }

  /** What the answer means, for any number of bits asked for. */
  ghost predicate StartsWithZeros(bytes: seq<byte>, bits: nat) {
    if bits <= 8 * |bytes| then BigEndian(bytes) < Pow2(8 * |bytes| - bits)
    else bits < 8 * |bytes| + 8 && BigEndian(bytes) == 0
  }

  lemma WholeBytes(bytes: seq<byte>, k: nat)
    requires k <= |bytes|
    ensures (forall i :: 0 <= i < k ==> bytes[i] == 0) <==> BigEndian(bytes) < Pow256(|bytes| - k)
  {
    LeadingBytes(bytes, k);
    BigEndianFits(bytes[k..]);
  }

  lemma WholeBytesStart(bytes: seq<byte>, k: nat)
    requires k <= |bytes|
    ensures StartsWithZeros(bytes, 8 * k) <==> forall i :: 0 <= i < k ==> bytes[i] == 0
  {
    WholeBytes(bytes, k);
    PowersMultiply(|bytes| - k, 0);
    assert 8 * |bytes| - 8 * k == 8 * (|bytes| - k) + 0;
    assert Pow2(0) == 1;
  }

  lemma PartByteStart(bytes: seq<byte>, k: nat, r: nat)
    requires k < |bytes| && 1 <= r <= 7 && forall i :: 0 <= i < k ==> bytes[i] == 0
    ensures StartsWithZeros(bytes, 8 * k + r) <==> bytes[k] as nat < Pow2(8 - r)
  {
    LeadingBytes(bytes, k);
    FirstByteDecides(bytes[k..], Pow2(8 - r));
    PowersMultiply(|bytes| - k - 1, 8 - r);
    assert 8 * |bytes| - (8 * k + r) == 8 * (|bytes| - k - 1) + (8 - r);
    assert |bytes[k..]| - 1 == |bytes| - k - 1;
  }

  lemma EarlyByteStart(bytes: seq<byte>, k: nat, bits: nat)
    requires 8 * (k + 1) <= bits && (k < |bytes| ==> bytes[k] != 0)
    ensures !StartsWithZeros(bytes, bits)
  {
    if k < |bytes| {
      WholeBytes(bytes, k + 1);
      if bits <= 8 * |bytes| {
        PowersMultiply(|bytes| - k - 1, 0);
        Pow2Grows(8 * |bytes| - bits, 8 * (|bytes| - k - 1) + 0);
      }
    }
  }

  /** Whether the byte's first `bits` bits are zero. */
  predicate FirstBitsZero(b: byte, bits: nat): (ok: bool)
    requires 1 <= bits <= 7
    ensures ok <==> b as nat < Pow2(8 - bits)
  {
    MaskTest(b, bits);
    (b as bv32) & Mask(bits) == 0
  }

  /**
   * True exactly when the digest, read as one big-endian number of n bytes, is below 2^(8n - bits).
   * Bits past the last byte count as zero up to seven of them; a whole byte that is not there does not.
   */
  method HasLeadingZeroBits(buffer: seq<byte>, bits: nat) returns (ok: bool)
    ensures ok <==> StartsWithZeros(buffer, bits)
    ensures bits <= 8 * |buffer| ==> (ok <==> BigEndian(buffer) < Pow2(8 * |buffer| - bits))
  {
    var fullBytes, remainingBits := bits / 8, bits % 8;
    var index := 0;
    while index < fullBytes
      invariant index <= fullBytes && index <= |buffer|
      invariant forall i :: 0 <= i < index ==> buffer[i] == 0
    {
      if index >= |buffer| || buffer[index] != 0 {
        EarlyByteStart(buffer, index, bits);
        return false;
      }
      index := index + 1;
    }
    WholeBytesStart(buffer, fullBytes);
    if remainingBits == 0 { return true; }
    var b: byte := if fullBytes < |buffer| then buffer[fullBytes] else 0;
    ok := FirstBitsZero(b, remainingBits);
    if fullBytes < |buffer| {
      PartByteStart(buffer, fullBytes, remainingBits);
    } else {
      WholeBytes(buffer, fullBytes);
    }
  }
}
