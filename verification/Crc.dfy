/** The register checksum (`crc_gentab`, `crc`, `md_crc_regs`): a table of remainders for all bytes
    makes it possible to divide by the polynomial a byte at a time.  A word is the list of its bits,
    the highest first. */
module Crc {

  type Bits = seq<bool>

  type Word = w: Bits | |w| == 32 witness Zeros(32)

  function Zeros(n: nat): Bits
  {
    seq(n, _ => false)
  }

  /** The low `k` bits of a number. */
  function BitsOf(n: nat, k: nat): (b: Bits)
    ensures |b| == k
  {
    if k == 0 then [] else BitsOf(n / 2, k - 1) + [n % 2 == 1]
  }

  function NumberOf(b: Bits): nat
  {
    if b == [] then 0 else 2 * NumberOf(b[..|b| - 1]) + (if b[|b| - 1] then 1 else 0)
  }

  lemma {:induction false} BitsOfNumber(b: Bits)
    ensures BitsOf(NumberOf(b), |b|) == b
  {
    if b != [] { BitsOfNumber(b[..|b| - 1]); }
  }

  lemma {:induction false} NumberBound(b: Bits)
    requires |b| <= 8
    ensures NumberOf(b) < 256 && (|b| == 0 ==> NumberOf(b) < 1) && (|b| == 1 ==> NumberOf(b) < 2)
    ensures (|b| == 2 ==> NumberOf(b) < 4) && (|b| == 3 ==> NumberOf(b) < 8) && (|b| == 4 ==> NumberOf(b) < 16)
    ensures (|b| == 5 ==> NumberOf(b) < 32) && (|b| == 6 ==> NumberOf(b) < 64) && (|b| == 7 ==> NumberOf(b) < 128)
  {
    if b != [] { NumberBound(b[..|b| - 1]); }
  }

  function Xor(a: Bits, b: Bits): (c: Bits)
    requires |a| == |b|
    ensures |c| == |a|
  {
    seq(|a|, i requires 0 <= i < |a| => a[i] != b[i])
  }

  const POLYNOMIAL: Word := BitsOf(0x04c1_1db7, 32)

  // ---------------------------------------------------------------- division, bit by bit

  /** One step of the division: the register is shifted, and reduced when a bit falls out. */
  function Shift(a: Word): Word
  {
    if a[0] then Xor(a[1..] + [false], POLYNOMIAL) else a[1..] + [false]
  }

  function ShiftN(a: Word, n: nat): Word
  {
    if n == 0 then a else Shift(ShiftN(a, n - 1))
  }

  /** The reference: one message bit enters at the high end. */
  function DivideBit(a: Word, bit: bool): Word
  {
    Shift(a[0 := a[0] != bit])
  }

  function Divide(a: Word, bits: Bits): Word
  {
    if bits == [] then a else DivideBit(Divide(a, bits[..|bits| - 1]), bits[|bits| - 1])
  }

  /** Byte `j` of a word, the lowest first, and all of them in that order. */
  function ByteOf(d: Word, j: nat): (b: Bits)
    requires j < 4
    ensures |b| == 8
  {
    d[24 - 8 * j..32 - 8 * j]
  }

  function FirstBytes(d: Word, n: nat): Bits
    requires n <= 4
  {
    if n == 0 then [] else FirstBytes(d, n - 1) + ByteOf(d, n - 1)
  }

  function Message(ws: seq<Word>): Bits
  {
    if ws == [] then [] else Message(ws[..|ws| - 1]) + FirstBytes(ws[|ws| - 1], 4)
  }

  lemma {:induction false} DivideConcat(a: Word, b: Bits, c: Bits)
    ensures Divide(a, b + c) == Divide(Divide(a, b), c)
  {
    if c == [] {
      assert b + c == b;
    } else {
      var n := |c| - 1;
      assert (b + c)[..|b| + n] == b + c[..n];
      DivideConcat(a, b, c[..n]);
    }
  }

  // ---------------------------------------------------------------- polynomials

  /** The product of a polynomial and the divisor, whose leading bit is implied. */
  function Times(q: Bits): (p: Bits)
    ensures |p| == |q| + 32
  {
    if q == [] then Zeros(32)
    else
      var n := |q| - 1;
      Xor(Times(q[..n]) + [false], if q[n] then Zeros(n) + [true] + POLYNOMIAL else Zeros(n + 33))
  }

  /** What `Divide` leaves is the remainder of a polynomial division: the register, moved up past the
      message, plus the message, moved up past the register, is a multiple of the divisor plus the
      result. */
  lemma {:induction false} DivideIsRemainder(a: Word, m: Bits) returns (q: Bits)
    ensures |q| == |m|
    ensures Xor(a + Zeros(|m|), m + Zeros(32)) == Xor(Times(q), Zeros(|m|) + Divide(a, m))
  {
    if m == [] {
      q := [];
    } else {
      var n := |m| - 1;
      var front := DivideIsRemainder(a, m[..n]);
      var r := Divide(a, m[..n]);
      q := front + [r[0] != m[n]];
      assert q[..n] == front;
      var d := if r[0] != m[n] then Zeros(n) + [true] + POLYNOMIAL else Zeros(n + 33);
      NextDividend(a, m);
      NextRemainder(r, m[n], n);
      Regroup(Times(front), Zeros(n) + r, Zeros(n) + [m[n]] + Zeros(32), d, Zeros(n + 1) + Divide(a, m));
    }
  }

  lemma NextDividend(a: Word, m: Bits)
    requires m != []
    ensures var n := |m| - 1;
            Xor(a + Zeros(n + 1), m + Zeros(32))
              == Xor(Xor(a + Zeros(n), m[..n] + Zeros(32)) + [false], Zeros(n) + [m[n]] + Zeros(32))
  {
  }

  /** The remainder so far, moved up, and the next bit: the divisor is taken away when they meet its
      leading bit. */
  lemma NextRemainder(r: Word, bit: bool, n: nat)
    ensures Xor((Zeros(n) + r) + [false], Zeros(n) + [bit] + Zeros(32))
         == Xor(if r[0] != bit then Zeros(n) + [true] + POLYNOMIAL else Zeros(n + 33), Zeros(n + 1) + DivideBit(r, bit))
  {
  }

  lemma Regroup(t: Bits, r: Bits, bit: Bits, d: Bits, r': Bits)
    requires |t| == |r| && |bit| == |d| == |r'| == |t| + 1
    requires Xor(r + [false], bit) == Xor(d, r')
    ensures Xor(Xor(t, r) + [false], bit) == Xor(Xor(t + [false], d), r')
  {
    forall i | 0 <= i < |bit|
      ensures Xor(Xor(t, r) + [false], bit)[i] == Xor(Xor(t + [false], d), r')[i]
    {
      assert Xor(r + [false], bit)[i] == Xor(d, r')[i];
    }
  }

  // ---------------------------------------------------------------- linearity

  lemma ShiftLinear(a: Word, b: Word)
    ensures Shift(Xor(a, b)) == Xor(Shift(a), Shift(b))
  {
  }

  lemma {:induction false} ShiftNLinear(a: Word, b: Word, n: nat)
    ensures ShiftN(Xor(a, b), n) == Xor(ShiftN(a, n), ShiftN(b, n))
  {
    if n > 0 {
      ShiftNLinear(a, b, n - 1);
      ShiftLinear(ShiftN(a, n - 1), ShiftN(b, n - 1));
    }
  }

  /** While only zeros fall out there is nothing to reduce. */
  lemma {:induction false} ZerosShift(a: Word, n: nat)
    requires n <= 32 && forall i | 0 <= i < n :: !a[i]
    ensures ShiftN(a, n) == a[n..] + Zeros(n)
  {
    if n > 0 {
      ZerosShift(a, n - 1);
      assert a[n - 1..][1..] == a[n..];
    }
  }

  /** Message bits that enter one by one can as well be added at once. */
  lemma {:induction false} DivideAtOnce(a: Word, b: Bits)
    requires |b| <= 32
    ensures Divide(a, b) == ShiftN(Xor(a, b + Zeros(32 - |b|)), |b|)
  {
    if b == [] {
      assert Xor(a, b + Zeros(32)) == a;
    } else {
      var k := |b| - 1;
      DivideAtOnce(a, b[..k]);
      var before := b[..k] + Zeros(32 - k);
      var bit := Zeros(k) + [b[k]] + Zeros(31 - k);
      OneMore(a, b);
      ShiftNLinear(Xor(a, before), bit, k);
      ZerosShift(bit, k);
      EntersOnTop(Divide(a, b[..k]), bit[k..] + Zeros(k), b[k]);
    }
  }

  lemma OneMore(a: Word, b: Bits)
    requires 0 < |b| <= 32
    ensures var k := |b| - 1;
            Xor(a, b + Zeros(31 - k)) == Xor(Xor(a, b[..k] + Zeros(32 - k)), Zeros(k) + [b[k]] + Zeros(31 - k))
  {
    var k := |b| - 1;
    assert b + Zeros(31 - k) == Xor(b[..k] + Zeros(32 - k), Zeros(k) + [b[k]] + Zeros(31 - k));
  }

  lemma EntersOnTop(d: Word, e: Word, bit: bool)
    requires e[0] == bit && forall i | 0 < i < 32 :: !e[i]
    ensures d[0 := d[0] != bit] == Xor(d, e)
  {
  }

  /** The remainder of a byte that has passed through the register. */
  function Remainder(i: nat): Word
  {
    ShiftN(BitsOf(i, 8) + Zeros(24), 8)
  }

  /** One lookup divides eight bits. */
  lemma LookupDivides(a: Word, b: Bits)
    requires |b| == 8
    ensures Divide(a, b) == Xor(a[8..] + Zeros(8), Remainder(NumberOf(Xor(a[..8], b))))
  {
    var top, low := Xor(a[..8], b), Zeros(8) + a[8..];
    DivideAtOnce(a, b);
    BitsOfNumber(top);
    assert Xor(a, b + Zeros(24)) == Xor(low, top + Zeros(24));
    ShiftNLinear(low, top + Zeros(24), 8);
    ZerosShift(low, 8);
    assert low[8..] == a[8..];
  }

  // ---------------------------------------------------------------- the table

  class Checksum {
    const table: array<Word>
    var init: bool

    ghost predicate Valid()
      reads this, table
    {
      table.Length == 256 && (init ==> forall i | 0 <= i < 256 :: table[i] == Remainder(i))
    }

    constructor ()
      ensures Valid()
    {
      table := new Word[256](_ => Zeros(32));
      init := false;
    }

    /** `crc_gentab`. */
    method GenTab()
      requires Valid()
      modifies table
      ensures forall i | 0 <= i < 256 :: table[i] == Remainder(i)
    {
      for i := 0 to 256
        invariant forall k | 0 <= k < i :: table[k] == Remainder(k)
      {
        var acc: Word := BitsOf(i, 8) + Zeros(24);
        for j := 0 to 8
          invariant acc == ShiftN(BitsOf(i, 8) + Zeros(24), j)
          invariant forall k | 0 <= k < i :: table[k] == Remainder(k)
        {
          if acc[0] {
            acc := Xor(acc[1..] + [false], POLYNOMIAL);
          } else {
            acc := acc[1..] + [false];
          }
        }
        table[i] := acc;
      }
    }

    /** `crc`: the bytes of the word divided one by one, the lowest first. */
    method Crc(accum: Word, data: Word) returns (acc: Word)
      requires Valid()
      modifies this`init, table
      ensures Valid() && acc == Divide(accum, FirstBytes(data, 4))
    {
      if !init {
        GenTab();
        init := true;
      }
      acc := accum;
      for j := 0 to 4
        invariant Valid() && init && acc == Divide(accum, FirstBytes(data, j))
      {
        var i := NumberOf(Xor(acc[..8], ByteOf(data, j)));
        NumberBound(Xor(acc[..8], ByteOf(data, j)));
        LookupDivides(acc, ByteOf(data, j));
        DivideConcat(accum, FirstBytes(data, j), ByteOf(data, j));
        acc := Xor(acc[8..] + Zeros(8), table[i]);
      }
    }

    /** `md_crc_regs`: the checksum of a list of registers, from a cleared accumulator. */
    method CrcRegs(regs: seq<Word>) returns (acc: Word)
      requires Valid()
      modifies this`init, table
      ensures Valid() && acc == Divide(Zeros(32), Message(regs))
    {
      acc := Zeros(32);
      for i := 0 to |regs|
        invariant Valid() && acc == Divide(Zeros(32), Message(regs[..i]))
      {
        acc := Crc(acc, regs[i]);
        assert regs[..i + 1][..i] == regs[..i];
        DivideConcat(Zeros(32), Message(regs[..i]), FirstBytes(regs[i], 4));
      }
      assert regs[..|regs|] == regs;
    }
  }
}
