/** Unsigned 32-bit arithmetic and 32-bit words seen as their bits. */
module Words {

  type byte = n: nat | n < 256

  type uint32 = n: nat | n < 0x1_0000_0000

  type int32 = n: int | -0x8000_0000 <= n < 0x8000_0000

  /** Bit `i` of the word is `b[i]`; index 0 is the least significant bit. */
  type Bits = b: seq<bool> | |b| == 32 witness seq(32, _ => false)

  function Zero(): Bits {
    seq(32, _ => false)
  }

  /** `a - k` in uint32: it wraps below zero. */
  function Sub32(a: uint32, k: nat): uint32 {
    (a - k) % 0x1_0000_0000
  }

  /** `b << d` for a shift smaller than the word. */
  function ShiftLeft(b: Bits, d: nat): Bits
    requires d < 32
  {
    seq(32, i requires 0 <= i < 32 => i >= d && b[i - d])
  }

  function Or(a: Bits, b: Bits): Bits {
    seq(32, i requires 0 <= i < 32 => a[i] || b[i])
  }

  /** `b | (1 << k)`. */
  function SetBit(b: Bits, k: nat): Bits
    requires k < 32
  {
    b[k := true]
  }

  /** The number a little-endian bit string denotes. */
  function Value(b: seq<bool>): nat {
    if b == [] then 0 else (if b[0] then 1 else 0) + 2 * Value(b[1..])
  }

  /** The low `len` bits of `n`. */
  function LowBits(n: nat, len: nat): (b: seq<bool>)
    ensures |b| == len
  {
    if len == 0 then [] else [n % 2 == 1] + LowBits(n / 2, len - 1)
  }

  function Pow2(k: nat): (p: nat)
    ensures p > 0
  {
    if k == 0 then 1 else 2 * Pow2(k - 1)
  }

  lemma {:induction false} ValueBound(b: seq<bool>)
    ensures Value(b) < Pow2(|b|)
  {
    if b != [] {
      ValueBound(b[1..]);
    }
  }

  lemma Pow2Of32()
    ensures Pow2(32) == 0x1_0000_0000
  {
    assert Pow2(8) == 256;
    assert Pow2(16) == 0x1_0000;
    assert Pow2(24) == 0x100_0000;
  }

  lemma BitsFit(b: Bits)
    ensures Value(b) < 0x1_0000_0000
  {
    ValueBound(b);
    Pow2Of32();
  }

  lemma {:induction false} LowBitsOfValue(b: seq<bool>)
    ensures LowBits(Value(b), |b|) == b
  {
    if b != [] {
      LowBitsOfValue(b[1..]);
    }
  }

  lemma {:induction false} ValueOfLowBits(n: nat, len: nat)
    requires n < Pow2(len)
    ensures Value(LowBits(n, len)) == n
  {
    if len > 0 {
      ValueOfLowBits(n / 2, len - 1);
    }
  }

  /** Concatenation associates; the solver wants to be told. */
  lemma Regroup<T>(a: seq<T>, b: seq<T>, c: seq<T>)
    ensures a + b + c == a + (b + c)
  {
  }
}
