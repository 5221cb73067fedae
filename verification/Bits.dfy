/** Bit strings, bytes and the integers that the codec shifts around.
    A bit string is written most significant bit first. */
module Bits {

  type Byte = b: nat | b < 0x100

  function Pow2(n: nat): (r: nat)
    ensures r > 0
  {
    if n == 0 then 1 else 2 * Pow2(n - 1)
  }

  lemma {:induction false} Pow2Add(a: nat, b: nat)
    ensures Pow2(a + b) == Pow2(a) * Pow2(b)
  {
    if b != 0 {
      Pow2Add(a, b - 1);
    }
  }

  lemma Pow2Values()
    ensures Pow2(3) == 8 && Pow2(7) == 0x80 && Pow2(8) == 0x100
    ensures Pow2(16) == 0x1_0000 && Pow2(32) == 0x1_0000_0000
  {
    assert Pow2(3) == 8;
    assert Pow2(7) == 0x80;
    Pow2Add(8, 8);
    Pow2Add(16, 16);
  }

  lemma {:induction false} Pow2Monotone(a: nat, b: nat)
    requires a <= b
    ensures Pow2(a) <= Pow2(b)
  {
    if a < b {
      Pow2Monotone(a, b - 1);
    }
  }

  /** The number that a bit string spells. */
  function Val(bits: seq<bool>): nat {
    if bits == [] then 0
    else 2 * Val(bits[..|bits| - 1]) + (if bits[|bits| - 1] then 1 else 0)
  }

  /** The lowest n bits of v. */
  function NatBits(v: nat, n: nat): (r: seq<bool>)
    ensures |r| == n
  {
    if n == 0 then [] else NatBits(v / 2, n - 1) + [v % 2 == 1]
  }

  lemma {:induction false} ValBound(bits: seq<bool>)
    ensures Val(bits) < Pow2(|bits|)
  {
    if bits != [] {
      ValBound(bits[..|bits| - 1]);
    }
  }

  /** Writing a bit string as a number loses nothing. */
  lemma {:induction false} NatBitsVal(bits: seq<bool>)
    ensures NatBits(Val(bits), |bits|) == bits
  {
    if bits != [] {
      NatBitsVal(bits[..|bits| - 1]);
    }
  }

  lemma {:induction false} ValNatBits(v: nat, n: nat)
    requires v < Pow2(n)
    ensures Val(NatBits(v, n)) == v
  {
    if n != 0 {
      ValNatBits(v / 2, n - 1);
      assert NatBits(v, n)[..n - 1] == NatBits(v / 2, n - 1);
    }
  }

  /** v >> n */
  function ShiftRight(v: nat, n: nat): nat {
    if n == 0 then v else ShiftRight(v / 2, n - 1)
  }

  /** v << n, before it is cut to the width of the register */
  function ShiftLeft(v: nat, n: nat): nat {
    if n == 0 then v else 2 * ShiftLeft(v, n - 1)
  }

  /** (v & mask) != 0, for a mask that has one bit */
  predicate TestBit(v: nat, mask: nat) {
    if mask <= 1 then v % 2 == 1 else TestBit(v / 2, mask / 2)
  }

  lemma {:induction false} NatBitsAt(v: nat, n: nat, k: nat)
    requires k < n
    ensures NatBits(v, n)[k] == TestBit(v, Pow2(n - 1 - k))
  {
    if k < n - 1 {
      NatBitsAt(v / 2, n - 1, k);
    }
  }

  lemma MulMonotone(d: nat, x: nat, y: nat)
    requires x <= y
    ensures d * x <= d * y
  {
    assert d * y == d * x + d * (y - x);
  }

  /** Quotient and remainder are the only such pair. */
  lemma DivUnique(v: nat, d: nat, q: nat, r: nat)
    requires v == d * q + r && r < d
    ensures v / d == q && v % d == r
  {
    var q' := v / d;
    assert v == d * q' + v % d;
    if q < q' {
      MulMonotone(d, q + 1, q');
    } else if q' < q {
      MulMonotone(d, q' + 1, q);
    }
  }

  lemma HalfMod(v: nat, d: nat)
    requires d > 0
    ensures v % (2 * d) / 2 == v / 2 % d && v % (2 * d) % 2 == v % 2
  {
    var h := v / 2;
    var q, r := h / d, h % d;
    assert h == d * q + r;
    assert 2 * (d * q) == (2 * d) * q;
    DivUnique(v, 2 * d, q, 2 * r + v % 2);
  }

  /** Cutting a number to k bits keeps its lowest k bits. */
  lemma {:induction false} NatBitsCut(v: nat, k: nat, n: nat)
    requires n <= k
    ensures NatBits(v % Pow2(k), n) == NatBits(v, n)
  {
    if n != 0 {
      HalfMod(v, Pow2(k - 1));
      NatBitsCut(v / 2, k - 1, n - 1);
    }
  }

  lemma NatBitsCut32(v: nat, n: nat)
    requires n <= 32
    ensures NatBits(v % 0x1_0000_0000, n) == NatBits(v, n)
  {
    Pow2Values();
    NatBitsCut(v, 32, n);
  }

  /** The low byte of a number, from its last eight bits. */
  lemma LowByte(x: nat)
    ensures x % 0x100 == Val(NatBits(x, 8))
  {
    Pow2Values();
    NatBitsCut(x, 8, 8);
    ValNatBits(x % 0x100, 8);
  }

  /** Shifting left by n bits and adding an n-bit number appends its bits. */
  lemma {:induction false} NatBitsAppend(x: nat, m: nat, v: nat, n: nat)
    requires v < Pow2(n)
    ensures NatBits(ShiftLeft(x, n) + v, m + n) == NatBits(x, m) + NatBits(v, n)
  {
    if n != 0 {
      NatBitsAppend(x, m, v / 2, n - 1);
    }
  }

  /** Shifting right by n bits drops the last n. */
  lemma {:induction false} NatBitsDrop(x: nat, m: nat, n: nat)
    ensures NatBits(ShiftRight(x, n), m) == NatBits(x, m + n)[..m]
  {
    if n != 0 {
      NatBitsDrop(x / 2, m, n - 1);
    }
  }

  lemma {:induction false} NatBitsLow(x: nat, m: nat, n: nat)
    ensures NatBits(x, n) == NatBits(x, m + n)[m..]
  {
    if n != 0 {
      NatBitsLow(x / 2, m, n - 1);
    }
  }

  function Zeros(n: nat): (r: seq<bool>)
    ensures |r| == n
  {
    seq(n, _ => false)
  }

  lemma {:induction false} ValZeros(n: nat)
    ensures Val(Zeros(n)) == 0
  {
    if n != 0 {
      assert Zeros(n)[..n - 1] == Zeros(n - 1);
      ValZeros(n - 1);
    }
  }

  /** The bits of a byte string, in transmission order. */
  function BytesBits(bytes: seq<Byte>): (r: seq<bool>)
    ensures |r| == 8 * |bytes|
  {
    if bytes == [] then [] else NatBits(bytes[0], 8) + BytesBits(bytes[1..])
  }

  lemma {:induction false} BytesBitsConcat(a: seq<Byte>, b: seq<Byte>)
    ensures BytesBits(a + b) == BytesBits(a) + BytesBits(b)
  {
    if a == [] {
      assert a + b == b;
    } else {
      assert (a + b)[1..] == a[1..] + b;
      BytesBitsConcat(a[1..], b);
    }
  }

  /** Is n a whole number of bytes? */
  ghost predicate Aligned(n: nat) {
    n == 0 || (n >= 8 && Aligned(n - 8))
  }

  lemma {:induction false} AlignedBytes(n: nat)
    ensures Aligned(8 * n)
  {
    if n != 0 {
      AlignedBytes(n - 1);
    }
  }

  lemma {:induction false} AlignedSum(a: nat, b: nat)
    requires Aligned(b)
    ensures Aligned(a + b) <==> Aligned(a)
    decreases b
  {
    if b != 0 {
      AlignedSum(a, b - 8);
      AlignedStep(a + b - 8);
    }
  }

  lemma {:induction false} AlignedStep(n: nat)
    ensures Aligned(n + 8) <==> Aligned(n)
  {
  }

  /** How many bits are missing to a whole number of bytes. */
  function PadLength(n: nat): (r: nat)
    ensures r < 8
  {
    if n == 0 then 0 else if n < 8 then 8 - n else PadLength(n - 8)
  }

  lemma {:induction false} PadAligns(n: nat)
    ensures Aligned(n + PadLength(n))
  {
    if n >= 8 {
      PadAligns(n - 8);
      AlignedStep(n - 8 + PadLength(n - 8));
    } else if n > 0 {
      AlignedStep(0);
    }
  }

  lemma {:induction false} PadAfter(a: nat, n: nat)
    ensures PadLength(8 * a + n) == PadLength(n)
  {
    if a != 0 {
      PadAfter(a - 1, n);
    }
  }

  /** The inverse of BytesBits on whole bytes. */
  ghost function Pack(bits: seq<bool>): (r: seq<Byte>)
    requires Aligned(|bits|)
    ensures 8 * |r| == |bits|
  {
    if bits == [] then []
    else
      ByteBound(bits[..8]);
      [Val(bits[..8])] + Pack(bits[8..])
  }

  lemma ByteBound(bits: seq<bool>)
    requires |bits| == 8
    ensures Val(bits) < 0x100
  {
    ValBound(bits);
    Pow2Values();
  }

  lemma {:induction false} BytesBitsPack(bits: seq<bool>)
    requires Aligned(|bits|)
    ensures BytesBits(Pack(bits)) == bits
  {
    if bits != [] {
      NatBitsVal(bits[..8]);
      BytesBitsPack(bits[8..]);
      assert Pack(bits)[1..] == Pack(bits[8..]);
      assert bits == bits[..8] + bits[8..];
    }
  }

  lemma {:induction false} BytesBitsInjective(a: seq<Byte>, b: seq<Byte>)
    requires BytesBits(a) == BytesBits(b)
    ensures a == b
  {
    if a != [] {
      Pow2Values();
      ValNatBits(a[0], 8);
      ValNatBits(b[0], 8);
      assert BytesBits(a)[..8] == NatBits(a[0], 8);
      assert BytesBits(b)[..8] == NatBits(b[0], 8);
      assert BytesBits(a)[8..] == BytesBits(a[1..]);
      assert BytesBits(b)[8..] == BytesBits(b[1..]);
      BytesBitsInjective(a[1..], b[1..]);
    }
  }

  /** Sending the first eight of the bits that are left. */
  lemma SendByte(sent: seq<Byte>, left: seq<bool>, b: Byte)
    requires |left| >= 8 && b == Val(left[..8])
    ensures BytesBits(sent + [b]) + left[8..] == BytesBits(sent) + left
  {
    NatBitsVal(left[..8]);
    BytesBitsConcat(sent, [b]);
    assert BytesBits([b]) == NatBits(b, 8) + BytesBits([b][1..]);
    assert left == left[..8] + left[8..];
  }
}
