/** The key-value store's own integer parser and printer, on 64-bit integers that wrap around. */
module KvNumbers {
  import opened Wrappers

  const TWO_63: int := 0x8000_0000_0000_0000
  const TWO_64: int := 0x1_0000_0000_0000_0000
  const MIN_INT64: int := -TWO_63

  predicate IsInt64(n: int) { -TWO_63 <= n < TWO_63 }

  /** The 64-bit two's-complement value of `n`. */
  function Wrap64(n: int): (w: int)
    ensures IsInt64(w)
  {
    (n + TWO_63) % TWO_64 - TWO_63
  }

  /** `a` and `b` are the same 64-bit pattern. */
  ghost predicate Congruent(a: int, b: int) {
    exists q :: Differ(a, b, q)
  }

  ghost predicate Differ(a: int, b: int, q: int) { a == b + q * TWO_64 }

  lemma WrapIsCongruent(n: int)
    ensures Congruent(Wrap64(n), n)
  {
    assert Differ(Wrap64(n), n, -((n + TWO_63) / TWO_64));
  }

  lemma CongruentWraps(a: int, b: int)
    requires Congruent(a, b)
    ensures Wrap64(a) == Wrap64(b)
  {
    var q :| Differ(a, b, q);
    ShiftKeepsRemainder(b + TWO_63, q);
  }

  lemma {:induction false} ShiftKeepsRemainder(n: int, q: int)
    ensures (n + q * TWO_64) % TWO_64 == n % TWO_64
    decreases if q < 0 then -q else q
  {
    if q > 0 {
      ShiftKeepsRemainder(n, q - 1);
      assert n + q * TWO_64 == n + (q - 1) * TWO_64 + TWO_64;
    } else if q < 0 {
      ShiftKeepsRemainder(n, q + 1);
      assert n + q * TWO_64 == n + (q + 1) * TWO_64 - TWO_64;
    }
  }

  /** Wrapping may be postponed past an addition. */
  lemma WrapAdd(a: int, b: int)
    ensures Wrap64(Wrap64(a) + b) == Wrap64(a + b)
  {
    WrapIsCongruent(a);
    var q :| Differ(Wrap64(a), a, q);
    assert Differ(Wrap64(a) + b, a + b, q);
    CongruentWraps(Wrap64(a) + b, a + b);
  }

  lemma WrapScale(a: int, d: int)
    ensures Wrap64(Wrap64(a) * 10 + d) == Wrap64(a * 10 + d)
  {
    WrapIsCongruent(a);
    var q :| Differ(Wrap64(a), a, q);
    assert Differ(Wrap64(a) * 10 + d, a * 10 + d, q * 10);
    CongruentWraps(Wrap64(a) * 10 + d, a * 10 + d);
  }

  lemma WrapNegate(a: int)
    ensures Wrap64(-Wrap64(a)) == Wrap64(-a)
  {
    WrapIsCongruent(a);
    var q :| Differ(Wrap64(a), a, q);
    assert Differ(-Wrap64(a), -a, -q);
    CongruentWraps(-Wrap64(a), -a);
  }

  predicate Digit(c: char) { '0' <= c <= '9' }

  function DigitValue(c: char): int
    requires Digit(c)
  {
    c as int - '0' as int
  }

  predicate AllDigits(s: string) {
    forall i :: 0 <= i < |s| ==> Digit(s[i])
  }

  /** The number a string of digits denotes. */
  function Value(s: string): nat
    requires AllDigits(s)
  {
    if s == [] then 0 else Value(s[..|s| - 1]) * 10 + DigitValue(s[|s| - 1])
  }

  function Unsigned(s: string): string {
    if s != [] && (s[0] == '-' || s[0] == '+') then s[1..] else s
  }

  /** An optional sign and at least one digit. */
  predicate WellFormed(s: string) {
    Unsigned(s) != [] && AllDigits(Unsigned(s))
  }

  function Denoted(s: string): int
    requires WellFormed(s)
  {
    var v: int := Value(Unsigned(s));
    if s[0] == '-' then -v else v
  }

  /** What the parser must return: the denoted number, reduced to 64 bits. */
  function Parsed(s: string): Option<int> {
    if WellFormed(s) then Some(Wrap64(Denoted(s))) else None
  }

  /** Reading one more digit of a number, in 64 bits. */
  lemma OneMoreDigit(s: string, k: nat)
    requires k < |s| && AllDigits(s[..k]) && Digit(s[k])
    ensures AllDigits(s[..k + 1])
    ensures Wrap64(Value(s[..k + 1])) == Wrap64(Wrap64(Value(s[..k])) * 10 + DigitValue(s[k]))
  {
    assert s[..k + 1] == s[..k] + [s[k]] && s[..k + 1][..k] == s[..k];
    WrapScale(Value(s[..k]), DigitValue(s[k]));
  }

  /** Accumulates digits with wrap-around; an empty string, a lone sign or a non-digit is an error. */
  method FmtInt(s: string) returns (r: Result<int>)
    ensures Parsed(s).Some? ==> r == Ok(Parsed(s).value)
    ensures Parsed(s).None? ==> r.Err?
  {
    if s == "" {
      return Err("empty");
    }
    var n, neg, i := 0, false, 0;
    if s[0] == '-' {
      neg, i := true, 1;
    } else if s[0] == '+' {
      i := 1;
    }
    if i == |s| {
      return Err("no digits");
    }
    ghost var digits := Unsigned(s);
    ghost var skip := i;
    while i < |s|
      invariant skip <= i <= |s| && |digits| == |s| - skip && digits == s[skip..]
      invariant AllDigits(digits[..i - skip])
      invariant n == Wrap64(Value(digits[..i - skip]))
    {
      var c := s[i];
      assert c == digits[i - skip];
      if c < '0' || c > '9' {
        return Err("non-digit");
      }
      OneMoreDigit(digits, i - skip);
      n := Wrap64(n * 10 + DigitValue(c));
      i := i + 1;
    }
    assert digits[..i - skip] == digits;
    if neg {
      WrapNegate(Value(digits));
      n := Wrap64(-n);
    }
    r := Ok(n);
  }

  function LastDigit(n: nat): (c: char)
    ensures Digit(c) && DigitValue(c) == n % 10
  {
    ('0' as int + n % 10) as char
  }

  function Digits(n: nat): (s: string)
    ensures AllDigits(s) && (n > 0 ==> s != [])
  {
    if n == 0 then "" else Digits(n / 10) + [LastDigit(n)]
  }

  /**
   What the printer leaves: the decimal digits after an optional sign. The smallest integer has
   no positive counterpart, so negating it changes nothing and only its sign is printed.
   */
  function Printed(n: int): string
    requires IsInt64(n)
  {
    if n == 0 then "0"
    else if n == MIN_INT64 then "-"
    else if n < 0 then "-" + Digits(-n)
    else Digits(n)
  }

  function Pow10(k: nat): nat { if k == 0 then 1 else 10 * Pow10(k - 1) }

  lemma NineteenDigits()
    ensures TWO_63 < Pow10(19)
  {
    assert Pow10(5) == 100000;
    assert Pow10(10) == 10000000000;
    assert Pow10(15) == 1000000000000000;
    assert Pow10(19) == 10000000000000000000;
  }

  lemma WrapInRange(n: int)
    ensures IsInt64(n) ==> Wrap64(n) == n
    ensures Wrap64(TWO_63) == MIN_INT64
  {
  }

  lemma DigitsStep(n: nat, rest: string)
    requires n > 0
    ensures Digits(n) + rest == Digits(n / 10) + ([LastDigit(n)] + rest)
  {
  }

  lemma PlaceLeft(n: nat, pos: nat)
    requires 1 <= pos && 0 < n < Pow10(pos - 1)
    ensures 2 <= pos && n / 10 < Pow10(pos - 2)
  {
  }

  /** Fills the buffer from the right; every index stays within it and a place is left for a sign. */
  method FillDigits(buf: array<char>, number: nat) returns (pos: nat)
    requires buf.Length == 20 && number < TWO_63
    modifies buf
    ensures 1 <= pos <= 20 && buf[pos..] == Digits(number)
  {
    var n: nat := number;
    pos := buf.Length;
    NineteenDigits();
    ghost var tail: string := [];
    assert buf[pos..] == tail;
    while n > 0
      invariant 1 <= pos <= 20 && n < Pow10(pos - 1)
      invariant buf[pos..] == tail && Digits(number) == Digits(n) + tail
      decreases n
    {
      DigitsStep(n, tail);
      PlaceLeft(n, pos);
      pos := pos - 1;
      buf[pos] := LastDigit(n);
      tail := [LastDigit(n)] + tail;
      assert buf[pos..] == tail;
      n := n / 10;
    }
  }

  method FmtIntStr(number: int) returns (s: string)
    requires IsInt64(number)
    ensures s == Printed(number)
  {
    if number == 0 {
      return "0";
    }
    var n, neg := number, false;
    WrapInRange(-n);
    if n < 0 {
      neg, n := true, Wrap64(-n);
    }
    var buf := new char[20](_ => '0');
    var pos := buf.Length;
    if n > 0 {
      pos := FillDigits(buf, n);
    }
    if neg {
      ghost var tail := buf[pos..];
      pos := pos - 1;
      buf[pos] := '-';
      assert buf[pos..] == ['-'] + tail;
    }
    s := buf[pos..];
  }

  lemma {:induction false} ValueOfDigits(n: nat)
    ensures Value(Digits(n)) == n
  {
    if n > 0 {
      ValueOfDigits(n / 10);
      assert Digits(n)[..|Digits(n)| - 1] == Digits(n / 10);
    }
  }

  lemma PositiveParses(n: int)
    requires 0 < n < TWO_63
    ensures Parsed(Digits(n)) == Some(n) && Parsed("-" + Digits(n)) == Some(-n)
  {
    var d := Digits(n);
    ValueOfDigits(n);
    assert Digit(d[0]) && Unsigned(d) == d;
    assert Unsigned("-" + d) == d;
    WrapInRange(n);
    WrapInRange(-n);
  }

  /** Printing and parsing undo each other on every 64-bit integer but the smallest. */
  lemma ParsePrinted(n: int)
    requires IsInt64(n)
    ensures Parsed(Printed(n)) == if n == MIN_INT64 then None else Some(n)
  {
    if n == 0 {
      var zero := "0";
      assert zero[..0] == [] && Unsigned(zero) == zero;
      assert Value(zero) == Value(zero[..0]) * 10 + 0;
    } else if n == MIN_INT64 {
      assert Unsigned("-") == [];
    } else {
      PositiveParses(if n < 0 then -n else n);
    }
  }
}
