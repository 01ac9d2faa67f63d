/**
 * The C# `byte`, `sbyte` and `ushort` values the emulator computes with.
 *
 * A byte is an integer 0..255 so that address and carry arithmetic stays in
 * plain integers. The bitwise operators `&`, `|` and `^` are computed bit by
 * bit, from bit 0 upwards, and `Digit(x, k)` reads bit `k` back, so every
 * fact about them is an induction over the bits.
 */
module Bytes {

  type Byte = x: int | 0 <= x < 0x100
  type Word = x: int | 0 <= x < 0x1_0000

  /** `(byte)x`: the low eight bits of any integer (two's complement for negatives). */
  function ToByte(x: int): Byte
  {
    x % 0x100
  }

  /** `(sbyte)b`: the same eight bits read as a signed value. */
  function Signed(b: Byte): (s: int)
    ensures -128 <= s < 128
    ensures ToByte(s) == b
  {
    if b < 0x80 then b else b - 0x100
  }

  /** The sign test: bit 7 set, that is the value 0x80 or above (`SignBit` shows both agree). */
  predicate IsNegative(b: Byte)
  {
    b >= 0x80
  }

  /** `2` to the power `n`. */
  function Exp2(n: nat): (r: nat)
    ensures r >= 1
  {
    if n == 0 then 1 else 2 * Exp2(n - 1)
  }

  /** Bit `k` of `x`. */
  predicate Digit(x: nat, k: nat)
  {
    if k == 0 then x % 2 == 1 else Digit(x / 2, k - 1)
  }

  /** The three bitwise operators, as what they do to one pair of bits. */
  datatype BitOp = AndOp | OrOp | XorOp
  {
    predicate Apply(x: bool, y: bool)
    {
      match this
      case AndOp => x && y
      case OrOp => x || y
      case XorOp => x != y
    }
  }

  /** The low `n` bits of `a op b`, bit 0 first. */
  function Combine(op: BitOp, a: nat, b: nat, n: nat): (r: nat)
    ensures r < Exp2(n)
  {
    if n == 0 then 0
    else (if op.Apply(a % 2 == 1, b % 2 == 1) then 1 else 0) + 2 * Combine(op, a / 2, b / 2, n - 1)
  }

  /** `a & b` on bytes. */
  function And(a: Byte, b: Byte): Byte
  {
    Combine(AndOp, a, b, 8)
  }

  /** `a | b` on bytes. */
  function Or(a: Byte, b: Byte): Byte
  {
    Combine(OrOp, a, b, 8)
  }

  /** `a ^ b` on bytes. */
  function Xor(a: Byte, b: Byte): Byte
  {
    Combine(XorOp, a, b, 8)
  }

  /** `1 << k` for a bit position of a byte: the masks the source writes as literals. */
  function Pow2(k: nat): Byte
    requires k < 8
  {
    [0x01, 0x02, 0x04, 0x08, 0x10, 0x20, 0x40, 0x80][k]
  }

  /** `~(1 << k)` as a byte: every bit but `k` set. */
  function AllBut(k: nat): Byte
    requires k < 8
  {
    0xFF - Pow2(k)
  }

  /** Bit `k` of `b` is set: `(b & (1 << k)) != 0`. */
  predicate BitSet(b: Byte, k: nat)
    requires k < 8
  {
    And(b, Pow2(k)) != 0
  }

  /** `flag ? 1 : 0`. */
  function Bit(flag: bool): nat
  {
    if flag then 1 else 0
  }

  /**
   * The number whose bit `k` is `bits[k]`: the OR of the terms
   * `(bits[k] ? 1 : 0) << k`, which share no bit, so the OR is their sum.
   */
  function Pack(bits: seq<bool>): (r: nat)
    ensures r < Exp2(|bits|)
  {
    if bits == [] then 0 else Bit(bits[0]) + 2 * Pack(bits[1..])
  }

  /** Bit `k` of `Pack(bits)` is `bits[k]`. */
  lemma {:induction false} DigitOfPack(bits: seq<bool>, k: nat)
    ensures Digit(Pack(bits), k) <==> k < |bits| && bits[k]
  {
    if bits == [] {
      DigitOfZero(k);
    } else if k > 0 {
      DigitOfPack(bits[1..], k - 1);
    }
  }

  /** Bit `k` of `a op b` is `op` applied to bit `k` of `a` and of `b`, below `n`, and clear above. */
  lemma {:induction false} DigitOfCombine(op: BitOp, a: nat, b: nat, n: nat, k: nat)
    ensures Digit(Combine(op, a, b, n), k) <==> k < n && op.Apply(Digit(a, k), Digit(b, k))
  {
    if n == 0 {
      DigitOfZero(k);
    } else if k > 0 {
      DigitOfCombine(op, a / 2, b / 2, n - 1, k - 1);
    }
  }

  /** No bit of 0 is set. */
  lemma {:induction false} DigitOfZero(k: nat)
    ensures !Digit(0, k)
  {
    if k > 0 {
      DigitOfZero(k - 1);
    }
  }

  /** Two numbers below `2^n` with the same `n` low bits are equal. */
  lemma {:induction false} DigitsDetermine(x: nat, y: nat, n: nat)
    requires x < Exp2(n) && y < Exp2(n)
    requires forall k :: 0 <= k < n ==> (Digit(x, k) <==> Digit(y, k))
    ensures x == y
  {
    if n > 0 {
      forall k | 0 <= k < n - 1
        ensures Digit(x / 2, k) <==> Digit(y / 2, k)
      {
        assert Digit(x, k + 1) <==> Digit(y, k + 1);
      }
      DigitsDetermine(x / 2, y / 2, n - 1);
      assert Digit(x, 0) <==> Digit(y, 0);
    }
  }

  /** A number below `2^n` has no bit at position `n` or above. */
  lemma {:induction false} DigitAbove(x: nat, n: nat, k: nat)
    requires x < Exp2(n) && k >= n
    ensures !Digit(x, k)
  {
    if n == 0 {
      DigitOfZero(k);
    } else {
      DigitAbove(x / 2, n - 1, k - 1);
    }
  }

  /** `2^n` has bit `n` and no other. */
  lemma {:induction false} DigitOfExp2(n: nat, k: nat)
    ensures Digit(Exp2(n), k) <==> k == n
  {
    if n == 0 {
      if k > 0 {
        DigitOfZero(k - 1);
      }
    } else if k > 0 {
      DigitOfExp2(n - 1, k - 1);
    }
  }

  /** `2^n - 1` has bits 0..n-1 set and no other. */
  lemma {:induction false} DigitOfAllOnes(n: nat, k: nat)
    ensures Digit(Exp2(n) - 1, k) <==> k < n
  {
    if n == 0 {
      DigitOfZero(k);
    } else if k > 0 {
      DigitOfAllOnes(n - 1, k - 1);
    }
  }

  /** Below `2^(n+1)`, bit `n` is set exactly for the numbers from `2^n` on. */
  lemma {:induction false} DigitOfTop(x: nat, n: nat)
    requires x < 2 * Exp2(n)
    ensures Digit(x, n) <==> x >= Exp2(n)
  {
    if n > 0 {
      DigitOfTop(x / 2, n - 1);
    }
  }

  /** Two bytes with the same bits 0..7 are equal. */
  lemma BytesByDigits(x: Byte, y: Byte)
    requires forall k :: 0 <= k < 8 ==> (Digit(x, k) <==> Digit(y, k))
    ensures x == y
  {
    assert Exp2(8) == 0x100;
    DigitsDetermine(x, y, 8);
  }

  /** Bit `k` of each of `a & b`, `a | b` and `a ^ b`, for bytes. */
  lemma DigitOfBitwise(a: Byte, b: Byte, k: nat)
    requires k < 8
    ensures Digit(And(a, b), k) <==> Digit(a, k) && Digit(b, k)
    ensures Digit(Or(a, b), k) <==> Digit(a, k) || Digit(b, k)
    ensures Digit(Xor(a, b), k) <==> Digit(a, k) != Digit(b, k)
  {
    DigitOfCombine(AndOp, a, b, 8, k);
    DigitOfCombine(OrOp, a, b, 8, k);
    DigitOfCombine(XorOp, a, b, 8, k);
  }

  /** The mask `1 << k` is `2^k`. */
  lemma Pow2IsExp2(k: nat)
    requires k < 8
    ensures Pow2(k) == Exp2(k)
  {
    if k == 0 {
    } else if k == 1 {
    } else if k == 2 {
    } else if k == 3 {
    } else if k == 4 {
    } else if k == 5 {
    } else if k == 6 {
    } else {
    }
  }

  /** `b & (1 << k)` is either the mask itself or 0, as bit `k` of `b` says. */
  lemma BitSetIsDigit(b: Byte, k: nat)
    requires k < 8
    ensures And(b, Pow2(k)) == if Digit(b, k) then Pow2(k) else 0
    ensures BitSet(b, k) <==> Digit(b, k)
  {
    var r := if Digit(b, k) then Pow2(k) else 0;
    forall j | 0 <= j < 8
      ensures Digit(And(b, Pow2(k)), j) <==> Digit(r, j)
    {
      DigitOfBitwise(b, Pow2(k), j);
      Pow2IsExp2(k);
      DigitOfExp2(k, j);
      DigitOfZero(j);
    }
    BytesByDigits(And(b, Pow2(k)), r);
  }

  /** `1 << k` has exactly bit `k` set. */
  lemma OneHotDigits(k: nat, j: nat)
    requires k < 8
    ensures Digit(Pow2(k), j) <==> j == k
  {
    Pow2IsExp2(k);
    DigitOfExp2(k, j);
  }

  /** `0xFF - (1 << k)`, the byte with every bit but `k`, has exactly that bit clear. */
  lemma OneColdDigits(k: nat, j: nat)
    requires k < 8 && j < 8
    ensures Digit(AllBut(k), j) <==> j != k
  {
    XorFFIsComplement(Pow2(k));
    DigitOfCombine(XorOp, Pow2(k), 0xFF, 8, j);
    DigitsOfFF(j);
    OneHotDigits(k, j);
  }

  /** `b | (1 << k)` sets bit `k` of `b` and keeps the others. */
  lemma DigitOfSetMask(b: Byte, k: nat, j: nat)
    requires k < 8 && j < 8
    ensures Digit(Or(b, Pow2(k)), j) <==> Digit(b, j) || j == k
  {
    DigitOfCombine(OrOp, b, Pow2(k), 8, j);
    OneHotDigits(k, j);
  }

  /** `b & (0xFF - (1 << k))` clears bit `k` of `b` and keeps the others. */
  lemma DigitOfClearMask(b: Byte, k: nat, j: nat)
    requires k < 8 && j < 8
    ensures Digit(And(b, AllBut(k)), j) <==> Digit(b, j) && j != k
  {
    DigitOfCombine(AndOp, b, AllBut(k), 8, j);
    OneColdDigits(k, j);
  }

  /** 0xFF has all eight bits set. */
  lemma DigitsOfFF(k: nat)
    requires k < 8
    ensures Digit(0xFF, k)
  {
    assert Exp2(8) == 0x100;
    DigitOfAllOnes(8, k);
  }

  /** `&` is commutative on bytes. */
  lemma AndCommutes(a: Byte, b: Byte)
    ensures And(a, b) == And(b, a)
  {
    forall k | 0 <= k < 8
      ensures Digit(And(a, b), k) <==> Digit(And(b, a), k)
    {
      DigitOfBitwise(a, b, k);
      DigitOfBitwise(b, a, k);
    }
    BytesByDigits(And(a, b), And(b, a));
  }

  /** `&` is associative on bytes. */
  lemma AndAssociates(a: Byte, b: Byte, c: Byte)
    ensures And(And(a, b), c) == And(a, And(b, c))
  {
    forall k | 0 <= k < 8
      ensures Digit(And(And(a, b), c), k) <==> Digit(And(a, And(b, c)), k)
    {
      DigitOfBitwise(And(a, b), c, k);
      DigitOfBitwise(a, b, k);
      DigitOfBitwise(a, And(b, c), k);
      DigitOfBitwise(b, c, k);
    }
    BytesByDigits(And(And(a, b), c), And(a, And(b, c)));
  }

  /** A byte whose bits are those of `b` with bit `k` set is `b | (1 << k)`. */
  lemma SetMaskByDigits(x: Byte, b: Byte, k: nat)
    requires k < 8
    requires forall j :: 0 <= j < 8 ==> (Digit(x, j) <==> Digit(b, j) || j == k)
    ensures x == Or(b, Pow2(k))
  {
    forall j | 0 <= j < 8
      ensures Digit(x, j) <==> Digit(Or(b, Pow2(k)), j)
    {
      DigitOfSetMask(b, k, j);
    }
    BytesByDigits(x, Or(b, Pow2(k)));
  }

  /** A byte whose bits are those of `b` with bit `k` clear is `b & (0xFF - (1 << k))`. */
  lemma ClearMaskByDigits(x: Byte, b: Byte, k: nat)
    requires k < 8
    requires forall j :: 0 <= j < 8 ==> (Digit(x, j) <==> Digit(b, j) && j != k)
    ensures x == And(b, AllBut(k))
  {
    forall j | 0 <= j < 8
      ensures Digit(x, j) <==> Digit(And(b, AllBut(k)), j)
    {
      DigitOfClearMask(b, k, j);
    }
    BytesByDigits(x, And(b, AllBut(k)));
  }

  /** `|` is commutative on bytes, 0 is its unit and 0xFF absorbs. */
  lemma OrFacts(a: Byte, b: Byte)
    ensures Or(a, b) == Or(b, a)
    ensures Or(0, a) == a && Or(0xFF, a) == 0xFF
  {
    forall k | 0 <= k < 8
      ensures (Digit(Or(a, b), k) <==> Digit(Or(b, a), k)) && (Digit(Or(0, a), k) <==> Digit(a, k))
      ensures Digit(Or(0xFF, a), k) <==> Digit(0xFF, k)
    {
      DigitOfBitwise(a, b, k);
      DigitOfBitwise(b, a, k);
      DigitOfBitwise(0, a, k);
      DigitOfBitwise(0xFF, a, k);
      DigitOfZero(k);
      DigitsOfFF(k);
    }
    BytesByDigits(Or(a, b), Or(b, a));
    BytesByDigits(Or(0, a), a);
    BytesByDigits(Or(0xFF, a), 0xFF);
  }

  /** `&` is idempotent, and 0xFF is its unit. */
  lemma AndIdentities(a: Byte)
    ensures And(a, a) == a
    ensures And(a, 0xFF) == a && And(0xFF, a) == a
  {
    forall k | 0 <= k < 8
      ensures (Digit(And(a, a), k) <==> Digit(a, k)) && (Digit(And(a, 0xFF), k) <==> Digit(a, k))
    {
      DigitOfBitwise(a, a, k);
      DigitOfBitwise(a, 0xFF, k);
      DigitsOfFF(k);
    }
    BytesByDigits(And(a, a), a);
    BytesByDigits(And(a, 0xFF), a);
    AndCommutes(a, 0xFF);
  }

  /** `b ^ 0xFF` is the one's complement `0xFF - b`: every bit flips and no borrow occurs. */
  lemma XorFFIsComplement(b: Byte)
    ensures Xor(b, 0xFF) == 0xFF - b
  {
    XorAllOnes(b, 0xFF, 8);
  }

  /** Xor with the all-ones number below `2^n` is subtraction from it, for `b` below `2^n`. */
  lemma {:induction false} XorAllOnes(b: nat, ones: nat, n: nat)
    requires ones == Exp2(n) - 1 && b < Exp2(n)
    ensures Combine(XorOp, b, ones, n) == ones - b
  {
    if n > 0 {
      XorAllOnes(b / 2, ones / 2, n - 1);
    }
  }

  /** Bit 7 set is the same as the value being 0x80 or above. */
  lemma SignBit(b: Byte)
    ensures BitSet(b, 7) <==> IsNegative(b)
  {
    BitSetIsDigit(b, 7);
    assert Exp2(7) == 0x80;
    DigitOfTop(b, 7);
  }
}
