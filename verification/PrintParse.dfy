/** Printing and parsing of 64-bit numbers (`_lowdigit`, the integer paths of `myvsprintf`, `myatosq`,
    `myatoq`).  Printing a number and parsing the text in the same base gives the number back. */
module PrintParse {

  const LL_MAX := 0x7fff_ffff_ffff_ffff
  const LL_MIN := -0x8000_0000_0000_0000
  const ULL_MAX := 0xffff_ffff_ffff_ffff

  // ---------------------------------------------------------------- numerals

  /** The value of a character as a digit; 99 if it is none. */
  function DigitOf(c: char): nat
  {
    if '0' <= c <= '9' then c as int - '0' as int
    else if 'a' <= c <= 'z' then c as int - 'a' as int + 10
    else if 'A' <= c <= 'Z' then c as int - 'A' as int + 10
    else 99
  }

  function CharOf(d: nat): (c: char)
    requires d < 16
    ensures DigitOf(c) == d
  {
    if d < 10 then ('0' as int + d) as char else ('a' as int + d - 10) as char
  }

  predicate AllDigits(s: string, base: nat)
  {
    forall i | 0 <= i < |s| :: DigitOf(s[i]) < base
  }

  function Value(s: string, base: nat): nat
  {
    if s == "" then 0 else Value(s[..|s| - 1], base) * base + DigitOf(s[|s| - 1])
  }

  /** The numeral without leading zeros. */
  function Numeral(n: nat, base: nat): (s: string)
    requires base == 10 || base == 16
    ensures s != ""
  {
    if n < base then [CharOf(n)] else Numeral(n / base, base) + [CharOf(n % base)]
  }

  lemma ValueSnoc(s: string, c: char, base: nat)
    ensures Value(s + [c], base) == Value(s, base) * base + DigitOf(c)
  {
    assert (s + [c])[..|s|] == s;
  }

  lemma {:induction false} NumeralValue(n: nat, base: nat)
    requires base == 10 || base == 16
    ensures Value(Numeral(n, base), base) == n && AllDigits(Numeral(n, base), base)
  {
    if n < base {
      ValueSnoc("", CharOf(n), base);
      assert "" + [CharOf(n)] == [CharOf(n)];
    } else {
      NumeralValue(n / base, base);
      ValueSnoc(Numeral(n / base, base), CharOf(n % base), base);
      assert n / base * base + n % base == n;
    }
  }

  function Power(base: nat, k: nat): nat
  {
    if k == 0 then 1 else base * Power(base, k - 1)
  }

  /** A numeral has no more digits than the buffer has room for. */
  lemma {:induction false} NumeralLength(n: nat, base: nat, k: nat)
    requires (base == 10 || base == 16) && 0 < k && n < Power(base, k)
    ensures |Numeral(n, base)| <= k
  {
    if n >= base {
      assert Power(base, 1) == base * Power(base, 0) == base;
      NumeralLength(n / base, base, k - 1);
    }
  }

  // ---------------------------------------------------------------- printing

  /** A conversion to a 32-bit `int`, and 32-bit arithmetic that wraps. */
  function Int32(x: int): (r: int)
    ensures -0x8000_0000 <= r < 0x8000_0000 && (x - r) % 0x1_0000_0000 == 0
  {
    var u := x % 0x1_0000_0000;
    if u < 0x8000_0000 then u else u - 0x1_0000_0000
  }

  /** The digit is computed from truncated numbers, and is right all the same. */
  lemma TruncatedDigit(q: nat)
    ensures Int32(Int32(q) - Int32(Int32(q / 10) * 10)) == q % 10
  {
    var a, b := Int32(q), Int32(q / 10);
    assert (q - 10 * (q / 10)) == q % 10;
    Congruent(q, a, q / 10, b);
  }

  lemma Congruent(q: int, a: int, p: int, b: int)
    requires (q - a) % 0x1_0000_0000 == 0 && (p - b) % 0x1_0000_0000 == 0 && 0 <= q - 10 * p < 10
    ensures Int32(a - Int32(b * 10)) == q - 10 * p
  {
    var m := 0x1_0000_0000;
    var k, l, j := (q - a) / m, (p - b) / m, (b * 10 - Int32(b * 10)) / m;
    var z := 10 * l + j - k;
    assert a - Int32(b * 10) == q - 10 * p + m * z;
    WrapExact(a - Int32(b * 10), q - 10 * p, z);
  }

  lemma WrapExact(x: int, d: nat, z: int)
    requires x == d + 0x1_0000_0000 * z && d < 10
    ensures Int32(x) == d
  {
  }

  /** `_lowdigit`: the last digit of a number whose high bit is set, and the number without it, with
      one-bit shifts so that no step needs the high bit. */
  method LowDigit(val: int) returns (digit: char, rest: int)
    requires LL_MIN <= val <= LL_MAX
    ensures var u := if val < 0 then val + ULL_MAX + 1 else val;
            digit == CharOf(u % 10) && rest == u / 10
  {
    var u := if val < 0 then val + ULL_MAX + 1 else val;
    var lowbit := u % 2;
    var value := u / 2;
    rest := value / 5;
    digit := ('0' as int + value % 5 * 2 + lowbit) as char;
    assert u == 10 * rest + (value % 5 * 2 + lowbit);
  }

  /** The loop at `decimal`: digits are stored backwards in front of what the buffer holds. */
  method Decimal(val: nat, tail: string) returns (s: string)
    ensures s == Numeral(val, 10) + tail
  {
    var qval := val;
    s := tail;
    if qval <= 9 {
      return [('0' as int + qval) as char] + s;
    }
    while true
      invariant 9 < qval && Numeral(qval, 10) + s == Numeral(val, 10) + tail
      decreases qval
    {
      var n := Int32(qval);
      TruncatedDigit(qval);
      ghost var was := qval;
      qval := qval / 10;
      var digit := Int32(n - Int32(Int32(qval) * 10));
      s := [('0' as int + digit) as char] + s;
      assert Numeral(was, 10) == Numeral(qval, 10) + [CharOf(digit)];
      if qval <= 9 {
        break;
      }
    }
    s := [('0' as int + qval) as char] + s;
  }

  /** `%ld`. */
  method PrintSigned(v: int) returns (s: string)
    requires LL_MIN <= v <= LL_MAX
    ensures s == SignedText(v)
  {
    var val := v;
    var tail := "";
    var prefix := "";
    if val < 0 {
      prefix := "-";
      if val != LL_MIN {
        val := -val;
      } else {
        var digit: char;
        digit, val := LowDigit(val);
        tail := [digit];
      }
    }
    s := Decimal(val, tail);
    s := prefix + s;
  }

  function SignedText(v: int): string
  {
    if v < 0 then "-" + Numeral(-v, 10) else Numeral(v, 10)
  }

  /** `%lu`: the argument is fetched into a signed variable. */
  method PrintUnsigned(u: nat) returns (s: string)
    requires u <= ULL_MAX
    ensures s == Numeral(u, 10)
  {
    var val := if u > LL_MAX then u - ULL_MAX - 1 else u;
    var tail := "";
    if val < 0 {
      var digit: char;
      digit, val := LowDigit(val);
      tail := [digit];
    }
    s := Decimal(val, tail);
  }

  /** `%lx`: zero is printed by the zero padding. */
  method PrintHex(u: nat) returns (s: string)
    requires u <= ULL_MAX
    ensures s == Numeral(u, 16)
  {
    if u == 0 {
      return "0";
    }
    var qval := u;
    s := "";
    while qval != 0
      invariant if qval == 0 then s == Numeral(u, 16) else Numeral(qval, 16) + s == Numeral(u, 16)
      decreases qval
    {
      s := [CharOf(qval % 16)] + s;
      qval := qval / 2 / 8;
    }
  }

  // ---------------------------------------------------------------- parsing

  /** The result, how many characters were used, and whether `errno` reports a range error. */
  datatype Parsed = Parsed(value: int, end: nat, erange: bool)

  predicate IsSpace(c: char)
  {
    c == ' ' || '\t' <= c <= '\r'
  }

  function SkipSpace(s: string, i: nat): (j: nat)
    requires i <= |s|
    decreases |s| - i
    ensures i <= j <= |s|
  {
    if i < |s| && IsSpace(s[i]) then SkipSpace(s, i + 1) else i
  }

  /** The character at a place; strings end with a NUL. */
  function CharAt(s: string, i: nat): char
  {
    if i < |s| then s[i] else '\0'
  }

  predicate HexPrefix(s: string, i: nat)
  {
    CharAt(s, i) == '0' && (CharAt(s, i + 1) == 'x' || CharAt(s, i + 1) == 'X')
  }

  /** Base 0 is 16 or 10, as the text begins. */
  function Base(s: string, i: nat, base: nat): nat
  {
    if base != 0 then base else if HexPrefix(s, i) then 16 else 10
  }

  /** The end of the digits that start at `i`. */
  function DigitsEnd(s: string, i: nat, base: nat): (j: nat)
    requires i <= |s|
    decreases |s| - i
    ensures i <= j <= |s|
  {
    if i < |s| && DigitOf(s[i]) < base then DigitsEnd(s, i + 1, base) else i
  }

  /** What the text stands for: spaces, for a signed number a sign, for base 16 a prefix, digits.
      Numbers that do not fit are cut to the limit. */
  function Meaning(s: string, base: nat, signed: bool): Parsed
    requires base == 0 || 2 <= base <= 36
  {
    var start := SkipSpace(s, 0);
    if start == |s| then Parsed(0, 0, false)
    else
      var b := Base(s, start, base);
      var negative := signed && s[start] == '-';
      var i := if signed && (s[start] == '-' || s[start] == '+') then start + 1 else start;
      var save := if b == 16 && HexPrefix(s, i) then i + 2 else i;
      FromDigits(s, save, b, negative, signed)
  }

  /** The largest number of the result type. */
  function Limit(signed: bool): nat
  {
    if signed then LL_MAX else ULL_MAX
  }

  function FromDigits(s: string, save: nat, base: nat, negative: bool, signed: bool): Parsed
    requires save <= |s|
  {
    var end := DigitsEnd(s, save, base);
    var n: int := Value(s[save..end], base);
    if end == save then Parsed(0, 0, false)
    else if n > Limit(signed) then Parsed(if !signed then ULL_MAX else if negative then LL_MIN else LL_MAX, end, true)
    else Parsed(if negative then -n else n, end, false)
  }

  /** The digit loop of both parsers, with its test for overflow before every step: it saturates if
      and only if the whole number is beyond the limit. */
  method Accumulate(s: string, save: nat, base: nat, cutoff: nat, cutlim: nat, ghost limit: nat)
    returns (end: nat, i: nat, overflow: bool)
    requires save <= |s| && 2 <= base <= 36 && Splits(limit, base, cutoff, cutlim)
    ensures end == DigitsEnd(s, save, base)
    ensures overflow <==> Value(s[save..end], base) > limit
    ensures !overflow ==> i == Value(s[save..end], base)
  {
    overflow := false;
    i := 0;
    end := save;
    while end < |s|
      invariant save <= end <= |s| && DigitsEnd(s, save, base) == DigitsEnd(s, end, base)
      invariant Tracks(i, overflow, Value(s[save..end], base), limit)
    {
      var c := DigitOf(s[end]);
      if c >= base {
        break;
      }
      NextDigit(s, save, end, base);
      StepTracks(i, overflow, Value(s[save..end], base), c, base, limit, cutoff, cutlim);
      if i > cutoff || (i == cutoff && c > cutlim) {
        overflow := true;
      } else {
        i := Append(i, base, c);
      }
      end := end + 1;
    }
  }

  function Append(i: nat, base: nat, c: nat): nat
  {
    i * base + c
  }

  lemma LimitSplits(limit: nat, base: nat)
    requires 0 < base
    ensures Splits(limit, base, limit / base, limit % base)
  {
  }

  /** The accumulator holds the number read so far, unless that is beyond the limit. */
  predicate Tracks(i: nat, overflow: bool, v: nat, limit: nat)
  {
    (overflow <==> v > limit) && (!overflow ==> i == v)
  }

  lemma StepTracks(i: nat, overflow: bool, v: nat, c: nat, base: nat, limit: nat, cutoff: nat, cutlim: nat)
    requires Tracks(i, overflow, v, limit) && c < base && Splits(limit, base, cutoff, cutlim)
    ensures if i > cutoff || (i == cutoff && c > cutlim) then Tracks(i, true, Append(v, base, c), limit)
            else Tracks(Append(i, base, c), overflow, Append(v, base, c), limit)
  {
    Beyond(v, c, base, limit, cutoff, cutlim);
    Beyond(i, c, base, limit, cutoff, cutlim);
  }

  lemma NextDigit(s: string, save: nat, end: nat, base: nat)
    requires save <= end < |s|
    ensures Value(s[save..end + 1], base) == Append(Value(s[save..end], base), base, DigitOf(s[end]))
  {
    assert s[save..end + 1] == s[save..end] + [s[end]];
    ValueSnoc(s[save..end], s[end], base);
  }

  /** The limit, as quotient and remainder. */
  predicate Splits(limit: nat, base: nat, cutoff: nat, cutlim: nat)
  {
    limit == cutoff * base + cutlim && cutlim < base
  }

  lemma Scale(a: nat, b: nat, c: nat)
    requires a <= b
    ensures a * c <= b * c
  {
  }

  /** The overflow test is exact. */
  lemma Beyond(i: nat, c: nat, base: nat, limit: nat, cutoff: nat, cutlim: nat)
    requires c < base && Splits(limit, base, cutoff, cutlim)
    ensures i > cutoff || (i == cutoff && c > cutlim) <==> Append(i, base, c) > limit
    ensures i > limit ==> Append(i, base, c) > limit
  {
    if i > cutoff {
      Above(i, base, cutoff);
    } else if i < cutoff {
      Above(cutoff, base, i);
    }
    Scale(1, base, i);
  }

  lemma Above(i: nat, base: nat, cutoff: nat)
    requires i > cutoff
    ensures i * base >= cutoff * base + base
  {
    Scale(cutoff + 1, i, base);
  }

  /** The numeral of a number is read back whole, and saturates beyond the limit. */
  lemma NumeralParsed(prefix: string, n: nat, base: nat, negative: bool, signed: bool)
    requires base == 10 || base == 16
    ensures var s := prefix + Numeral(n, base);
            FromDigits(s, |prefix|, base, negative, signed)
              == if n <= Limit(signed) then Parsed(if negative then -(n as int) else n, |s|, false)
                 else Parsed(if !signed then ULL_MAX else if negative then LL_MIN else LL_MAX, |s|, true)
  {
    var s := prefix + Numeral(n, base);
    NumeralValue(n, base);
    assert s[|prefix|..] == s[|prefix|..|s|] == Numeral(n, base);
    DigitsToEnd(s, |prefix|, base);
  }

  lemma {:induction false} DigitsToEnd(s: string, i: nat, base: nat)
    requires i <= |s| && AllDigits(s[i..], base)
    ensures DigitsEnd(s, i, base) == |s|
    decreases |s| - i
  {
    if i < |s| {
      assert s[i..][0] == s[i] && s[i..][1..] == s[i + 1..];
      DigitsToEnd(s, i + 1, base);
    }
  }

  /** White space is skipped. */
  method Skip(s: string) returns (i: nat)
    ensures i == SkipSpace(s, 0)
  {
    i := 0;
    while i < |s| && IsSpace(s[i])
      invariant i <= |s| && SkipSpace(s, 0) == SkipSpace(s, i)
    {
      i := i + 1;
    }
  }

  /** `myatosq`: the source stops on an empty text or an impossible base. */
  method Atosq(nptr: string, base: nat) returns (r: Parsed)
    requires nptr != "" && (base == 0 || 2 <= base <= 36)
    ensures r == Meaning(nptr, base, true)
  {
    var s := Skip(nptr);
    if s == |nptr| {
      return Parsed(0, 0, false);
    }
    var b := if base != 0 then base else if HexPrefix(nptr, s) then 16 else 10;
    var negative := false;
    if nptr[s] == '-' {
      negative := true;
      s := s + 1;
    } else if nptr[s] == '+' {
      s := s + 1;
    }
    if b == 16 && HexPrefix(nptr, s) {
      s := s + 2;
    }
    r := Convert(nptr, s, b, negative, true);
  }

  /** The common end of the parsers. */
  method Convert(nptr: string, save: nat, base: nat, negative: bool, signed: bool) returns (r: Parsed)
    requires save <= |nptr| && 2 <= base <= 36
    ensures r == FromDigits(nptr, save, base, negative, signed)
  {
    LimitSplits(Limit(signed), base);
    var cutoff, cutlim := Limit(signed) / base, Limit(signed) % base;
    var s, i, overflow := Accumulate(nptr, save, base, cutoff, cutlim, Limit(signed));
    if s == save {
      return Parsed(0, 0, false);
    }
    if overflow {
      return Parsed(if !signed then ULL_MAX else if negative then LL_MIN else LL_MAX, s, true);
    }
    var value: int := i;
    r := Parsed(if negative then -value else value, s, false);
  }

  /** `myatoq`. */
  method Atoq(nptr: string, base: nat) returns (r: Parsed)
    requires nptr != "" && (base == 0 || 2 <= base <= 36)
    ensures r == Meaning(nptr, base, false)
  {
    var s := Skip(nptr);
    if s == |nptr| {
      return Parsed(0, 0, false);
    }
    var b := if base != 0 then base else if HexPrefix(nptr, s) then 16 else 10;
    if b == 16 && HexPrefix(nptr, s) {
      s := s + 2;
    }
    r := Convert(nptr, s, b, false, false);
  }

  // ---------------------------------------------------------------- round trips

  /** A numeral starts with a digit that is no space, sign or hexadecimal prefix. */
  lemma {:induction false} NumeralStart(n: nat, base: nat)
    requires base == 10 || base == 16
    ensures DigitOf(Numeral(n, base)[0]) < base && (n != 0 ==> Numeral(n, base)[0] != '0')
    ensures |Numeral(n, base)| == 1 || n != 0
  {
    if n >= base { NumeralStart(n / base, base); }
  }

  /** `%ld` and `myatosq`: every value is read back, and `errno` reports a range error for the most
      negative one, and only for it. */
  lemma SignedRoundTrip(v: int)
    requires LL_MIN <= v <= LL_MAX
    ensures Meaning(SignedText(v), 10, true) == Parsed(v, |SignedText(v)|, v == LL_MIN)
  {
    var m: nat := if v < 0 then -v else v;
    NumeralStart(m, 10);
    if v < 0 {
      NumeralParsed("-", m, 10, true, true);
      MeansDigits(SignedText(v), true);
    } else {
      NumeralParsed("", m, 10, false, true);
      assert "" + Numeral(m, 10) == SignedText(v);
      MeansDigits(SignedText(v), false);
    }
  }

  /** The digits start at once, or after a minus sign. */
  lemma MeansDigits(s: string, negative: bool)
    requires s != "" && (if negative then s[0] == '-' else DigitOf(s[0]) < 10)
    ensures Meaning(s, 10, true) == FromDigits(s, if negative then 1 else 0, 10, negative, true)
  {
    assert SkipSpace(s, 0) == 0;
  }

  /** `%lu`, `%lx` and `myatoq` in base 10 or 16: every value is read back without an error. */
  lemma UnsignedRoundTrip(u: nat, base: nat)
    requires u <= ULL_MAX && (base == 10 || base == 16)
    ensures Meaning(Numeral(u, base), base, false) == Parsed(u, |Numeral(u, base)|, false)
  {
    var s := Numeral(u, base);
    NumeralStart(u, base);
    NumeralParsed("", u, base, false, false);
    assert "" + s == s;
    assert SkipSpace(s, 0) == 0 && !(base == 16 && HexPrefix(s, 0));
  }

  /** The digits fit the 22 places of the buffer. */
  lemma DigitsFit(u: nat)
    requires u <= ULL_MAX
    ensures |Numeral(u, 10)| <= 20 && |Numeral(u, 16)| <= 16
  {
    Powers();
    NumeralLength(u, 10, 20);
    NumeralLength(u, 16, 16);
  }

  lemma Powers()
    ensures Power(10, 20) == 100_000_000_000_000_000_000 && Power(16, 16) == ULL_MAX + 1
  {
    assert Power(10, 5) == 100_000 && Power(16, 4) == 65_536;
    assert Power(10, 10) == 10_000_000_000 && Power(16, 8) == 4_294_967_296;
    assert Power(10, 15) == 1_000_000_000_000_000 && Power(16, 12) == 281_474_976_710_656;
  }
}
