/** Numbers as text: what printf's %d, %lu and %lx write, and the digit loops that read it back. */
module Digits {
  import opened Common

  /** Hexadecimal, decimal, and what generate_trace does with decimal fields: base ten, but with the
      letters of base sixteen. */
  datatype Base = Dec | Hex | Loose

  function DigitChar(d: nat): char
    requires d < 16
  {
    if d < 10 then (d + 48) as char else (d + 87) as char
  }

  /** A byte as a signed char. */
  function Signed(c: char): int {
    if c as int < 128 then c as int else c as int - 256
  }

  /** The readers' digit value.  Anything else is taken relative to '0', whatever it is. */
  function DigitValue(c: char, base: Base): int {
    if base != Dec && Signed(c) >= 97 then Signed(c) - 87 else Signed(c) - 48
  }

  function Quotient(n: nat, base: Base): nat {
    match base
    case Hex => n / 16
    case _ => n / 10
  }

  function Remainder(n: nat, base: Base): (d: nat)
    ensures d < if base == Hex then 16 else 10
  {
    match base
    case Hex => n % 16
    case _ => n % 10
  }

  function Print(n: nat, base: Base): (s: seq<char>)
    ensures s != []
    decreases n
  {
    if Quotient(n, base) == 0 then [DigitChar(n)] else Print(Quotient(n, base), base) + [DigitChar(Remainder(n, base))]
  }

  function Append(x: int, base: Base, c: char): int {
    (match base case Hex => x * 16 case _ => x * 10) + DigitValue(c, base)
  }

  /** What a digit loop accumulates from 0, with no bound on the accumulator. */
  function Read(s: seq<char>, base: Base): int {
    if s == [] then 0 else Append(Read(s[..|s| - 1], base), base, s[|s| - 1])
  }

  /** The same in a 64-bit unsigned accumulator. */
  function Read64(s: seq<char>, base: Base): (n: nat)
    ensures n < U64
  {
    if s == [] then 0 else Append(Read64(s[..|s| - 1], base), base, s[|s| - 1]) % U64
  }

  /** A 32-bit int, on a two's complement machine that wraps. */
  function Wrap32(x: int): (r: int)
    ensures -0x8000_0000 <= r < 0x8000_0000
  {
    (x + 0x8000_0000) % 0x1_0000_0000 - 0x8000_0000
  }

  /** The same in a 32-bit int accumulator. */
  function Read32(s: seq<char>, base: Base): int {
    if s == [] then 0 else Wrap32(Append(Read32(s[..|s| - 1], base), base, s[|s| - 1]))
  }

  lemma WrapOnce(x: int, y: int, k: int)
    requires y == x + k * 0x1_0000_0000
    ensures Wrap32(y) == Wrap32(x)
  {
  }

  /** It makes no difference whether the loop wraps at each digit or once at the end. */
  lemma {:induction false} Read32Is(s: seq<char>, base: Base)
    ensures Read32(s, base) == Wrap32(Read(s, base))
  {
    if s != [] {
      var front, c := s[..|s| - 1], s[|s| - 1];
      Read32Is(front, base);
      var x, w := Read(front, base), Wrap32(Read(front, base));
      var k := (x + 0x8000_0000) / 0x1_0000_0000;
      assert x == w + k * 0x1_0000_0000;
      WrapOnce(Append(w, base, c), Append(x, base, c), if base == Hex then 16 * k else 10 * k);
    }
  }

  predicate Digit(c: char, base: Base) { '0' <= c <= '9' || (base == Hex && 'a' <= c <= 'f') }

  /** The numeral without its last digit is the numeral of the quotient. */
  lemma LastDigit(n: nat, base: Base)
    ensures var s := Print(n, base);
            var q := Quotient(n, base);
            && (s[..|s| - 1] == if q == 0 then [] else Print(q, base))
            && s[|s| - 1] == DigitChar(Remainder(n, base))
  {
  }

  lemma LastDigitReads(n: nat, base: Base)
    ensures Append(Quotient(n, base), base, DigitChar(Remainder(n, base))) == n
    ensures Digit(DigitChar(Remainder(n, base)), base)
  {
  }

  lemma {:induction false} ReadPrint(n: nat, base: Base)
    ensures Read(Print(n, base), base) == n
    ensures forall i | 0 <= i < |Print(n, base)| :: Digit(Print(n, base)[i], base)
    decreases n
  {
    LastDigit(n, base);
    LastDigitReads(n, base);
    var q := Quotient(n, base);
    if q > 0 {
      ReadPrint(q, base);
    }
    var s := Print(n, base);
    assert s == s[..|s| - 1] + [s[|s| - 1]];
  }

  /** A 64-bit value never wraps on its way back. */
  lemma {:induction false} Read64Print(n: nat, base: Base)
    requires n < U64
    ensures Read64(Print(n, base), base) == n
    decreases n
  {
    LastDigit(n, base);
    LastDigitReads(n, base);
    var q := Quotient(n, base);
    var s := Print(n, base);
    assert Read64(s[..|s| - 1], base) == q by {
      if q > 0 {
        Read64Print(q, base);
      }
    }
  }

  /** Decimal numerals have no letters. */
  lemma {:induction false} LooseIsDecimal(n: nat)
    ensures Print(n, Loose) == Print(n, Dec)
    decreases n
  {
    if n >= 10 {
      LooseIsDecimal(n / 10);
    }
  }

  /** The loops go left to right: the next character is appended to what has been read. */
  lemma ReadSnoc(s: seq<char>, c: char, base: Base)
    ensures Read(s + [c], base) == Append(Read(s, base), base, c)
    ensures Read64(s + [c], base) == Append(Read64(s, base), base, c) % U64
    ensures Read32(s + [c], base) == Wrap32(Append(Read32(s, base), base, c))
  {
    assert (s + [c])[..|s|] == s;
  }

  lemma PrintedWithout(n: nat, base: Base)
    ensures ' ' !in Print(n, base) && '\n' !in Print(n, base) && '-' !in Print(n, base) && '\0' !in Print(n, base)
  {
    ReadPrint(n, base);
  }

  /** How large and how long a decimal numeral is. */
  function Pow10(k: nat): nat { if k == 0 then 1 else 10 * Pow10(k - 1) }

  lemma {:induction false} PrintIsAsLong(n: nat)
    ensures n < Pow10(|Print(n, Dec)|)
    ensures n > 0 ==> n >= Pow10(|Print(n, Dec)| - 1)
    decreases n
  {
    if n >= 10 {
      PrintIsAsLong(n / 10);
    }
  }

  /** int(uint64) on a two's complement machine. */
  function ToInt32(x: nat): int { Wrap32(x) }

  lemma SliceSnoc(s: seq<char>, i: nat, k: nat)
    requires i <= k < |s|
    ensures s[i..k + 1] == s[i..k] + [s[k]]
  {
  }

  /** A leading minus sign is read as a digit worth -3. */
  lemma {:induction false} ReadAfterMinus(s: seq<char>)
    ensures Read("-" + s, Dec) == -3 * Pow10(|s|) + Read(s, Dec)
  {
    if s == [] {
      assert "-"[..0] == [];
      assert "-" + s == "-";
    } else {
      var front, c := s[..|s| - 1], s[|s| - 1];
      ReadAfterMinus(front);
      assert "-" + s == ("-" + front) + [c];
      assert s == front + [c];
      ReadSnoc("-" + front, c, Dec);
      ReadSnoc(front, c, Dec);
    }
  }

  /** The one negative int that the wrapped sum gives back: -3 * 10^10 + 2115098112 is congruent to it. */
  const WRAPPED: int := -2115098112

  /** A printed negative int is read as another one, with that exception. */
  lemma NegativeReadsBackExactlyWhen(n: nat)
    requires 0 < n <= 0x8000_0000
    ensures (Wrap32(Read("-" + Print(n, Dec), Dec)) == 0 - n) <==> (0 - n == WRAPPED)
  {
    var k := |Print(n, Dec)|;
    PrintIsAsLong(n);
    ReadAfterMinus(Print(n, Dec));
    ReadPrint(n, Dec);
    LongNumeral(n, k);
    assert Pow10(k) == 10 * Pow10(k - 1);
    WrapMisses(n, Pow10(k));
  }

  lemma WrapMisses(n: nat, p: nat)
    requires p <= 10 * n && n < p && 0 < n <= 0x8000_0000
    requires p in {10, 100, 1000, 10000, 100000, 1000000, 10000000, 100000000, 1000000000, 10000000000}
    ensures Wrap32(n - 3 * p) == 0 - n <==> n == 2115098112
  {
    if p <= 100000000 {
      assert Wrap32(n - 3 * p) == n - 3 * p;
    } else if p == 1000000000 {
      assert Wrap32(n - 3000000000) == n - 3000000000 || Wrap32(n - 3000000000) == n - 3000000000 + 0x1_0000_0000;
    } else {
      TenDigits(n);
    }
  }

  lemma TenDigits(n: nat)
    requires 1000000000 <= n <= 0x8000_0000
    ensures Wrap32(n - 30000000000) == 0 - n <==> n == 2115098112
  {
    var k := (n - 30000000000 + 0x8000_0000) / 0x1_0000_0000;
    assert Wrap32(n - 30000000000) == n - 30000000000 - k * 0x1_0000_0000;
    assert k == -7 || k == -6;
  }

  lemma Powers(k: nat)
    requires 1 <= k <= 10
    ensures Pow10(10) == 10000000000
    ensures Pow10(k) in {10, 100, 1000, 10000, 100000, 1000000, 10000000, 100000000, 1000000000, 10000000000}
  {
    assert Pow10(1) == 10 * Pow10(0);
    assert Pow10(3) == 1000;
    assert Pow10(5) == 100000;
    assert Pow10(7) == 10000000;
    assert Pow10(9) == 1000000000;
  }

  lemma {:induction false} PowGrows(i: nat, j: nat)
    requires i <= j
    ensures Pow10(i) <= Pow10(j)
    decreases j
  {
    if i < j {
      PowGrows(i, j - 1);
    }
  }

  lemma LongNumeral(n: nat, k: nat)
    requires 0 < n <= 0x8000_0000 && k > 0 && Pow10(k - 1) <= n < Pow10(k)
    ensures k <= 10
    ensures Pow10(k) in {10, 100, 1000, 10000, 100000, 1000000, 10000000, 100000000, 1000000000, 10000000000}
  {
    Powers(1);
    if k > 10 {
      PowGrows(10, k - 1);
    } else {
      Powers(k);
    }
  }
}
