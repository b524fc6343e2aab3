/** Java semantics the two interpreters rely on: the run-time exceptions they let
    escape, 32- and 64-bit two's-complement arithmetic, division that truncates
    toward zero, and the decimal conversions of Integer.parseInt, Long.parseLong
    and Integer.toString / Long.toString. */
module JavaLang {

  /** The unchecked Java exceptions that escape the interpreters' `eval`. */
  datatype Exception =
    | NullPointer          // a method called on, or an unboxing of, a null value
    | ClassCast            // a node value cast to the wrong class
    | IndexOutOfBounds     // ArrayList.get / String.charAt out of range
    | NumberFormat         // Integer.parseInt / Long.parseLong rejected a token
    | Arithmetic           // integer division or remainder by zero

  /** Why a computation of the model has no value. */
  datatype Fault =
    | Thrown(exception: Exception)
    | Unmodelled(what: string)   // floating point, host reflection, console and process I/O
    | OutOfFuel                  // the bound on recursion depth and loop iterations ran out

  datatype Result<+T> = Ok(value: T) | Err(fault: Fault)
  {
    predicate IsFailure() { Err? }

    function PropagateFailure<U>(): Result<U>
      requires Err?
    {
      Err(fault)
    }

    function Extract(): T
      requires Ok?
    {
      value
    }
  }

  function Throw<T>(e: Exception): Result<T> { Err(Thrown(e)) }

  // ---------------------------------------------------------------------------
  // Fixed-width integers

  const TWO32: int := 0x1_0000_0000
  const TWO64: int := 0x1_0000_0000_0000_0000
  const INT_MIN: int := -0x8000_0000
  const INT_MAX: int := 0x7fff_ffff
  const LONG_MIN: int := -0x8000_0000_0000_0000
  const LONG_MAX: int := 0x7fff_ffff_ffff_ffff

  predicate IsInt(x: int) { INT_MIN <= x <= INT_MAX }
  predicate IsLong(x: int) { LONG_MIN <= x <= LONG_MAX }

  /** The Java `int` congruent to x modulo 2^32 (two's-complement wrap-around). */
  function Wrap32(x: int): (r: int)
    ensures IsInt(r)
    ensures (x - r) % TWO32 == 0
  {
    var m := (x - INT_MIN) % TWO32;
    assert x - INT_MIN == TWO32 * ((x - INT_MIN) / TWO32) + m;
    m + INT_MIN
  }

  /** The Java `long` congruent to x modulo 2^64. */
  function Wrap64(x: int): (r: int)
    ensures IsLong(r)
    ensures (x - r) % TWO64 == 0
  {
    var m := (x - LONG_MIN) % TWO64;
    assert x - LONG_MIN == TWO64 * ((x - LONG_MIN) / TWO64) + m;
    m + LONG_MIN
  }

  /** A congruence class modulo 2^32 has exactly one member in the `int` range,
      so Wrap32 is the only possible result of a wrapping operation. */
  lemma Wrap32Unique(x: int, r: int)
    requires IsInt(r) && (x - r) % TWO32 == 0
    ensures r == Wrap32(x)
  {
    var w := Wrap32(x);
    var k := (x - r) / TWO32;
    var j := (x - w) / TWO32;
    assert x - r == TWO32 * k;
    assert x - w == TWO32 * j;
    assert w - r == TWO32 * (k - j);
    assert -TWO32 < w - r < TWO32;
    MultipleInOpenRange(TWO32, k - j);
  }

  lemma Wrap64Unique(x: int, r: int)
    requires IsLong(r) && (x - r) % TWO64 == 0
    ensures r == Wrap64(x)
  {
    var w := Wrap64(x);
    var k := (x - r) / TWO64;
    var j := (x - w) / TWO64;
    assert x - r == TWO64 * k;
    assert x - w == TWO64 * j;
    assert w - r == TWO64 * (k - j);
    assert -TWO64 < w - r < TWO64;
    MultipleInOpenRange(TWO64, k - j);
  }

  lemma MultipleInOpenRange(m: int, d: int)
    requires m > 0 && -m < m * d < m
    ensures d == 0
  {
  }

  /** Values already in range are left alone. */
  lemma WrapInRange(x: int)
    ensures IsInt(x) ==> Wrap32(x) == x
    ensures IsLong(x) ==> Wrap64(x) == x
  {
    if IsInt(x) { Wrap32Unique(x, x); }
    if IsLong(x) { Wrap64Unique(x, x); }
  }

  /** Wrapping a 64-bit value to 32 bits keeps its low 32 bits: this is
      Number.intValue() on a Long, and it composes with a 64-bit wrap. */
  lemma Wrap32OfWrap64(x: int)
    ensures Wrap32(Wrap64(x)) == Wrap32(x)
  {
    var w := Wrap64(x);
    var r := Wrap32(w);
    var a := (x - w) / TWO64;
    var b := (w - r) / TWO32;
    assert x - w == TWO64 * a;
    assert w - r == TWO32 * b;
    assert x - r == TWO32 * (TWO32 * a + b);
    Wrap32Unique(x, r);
  }

  /** Wrapping respects congruence, so a fold may wrap at every step or
      once at the end. */
  lemma Wrap32Congruent(x: int, y: int)
    requires (x - y) % TWO32 == 0
    ensures Wrap32(x) == Wrap32(y)
  {
    var a := (x - y) / TWO32;
    assert x - y == TWO32 * a;
    Wrap32Shift(x, y, a);
  }

  /** The same, with the multiple of 2^32 given. */
  lemma Wrap32Shift(x: int, y: int, d: int)
    requires x - y == TWO32 * d
    ensures Wrap32(x) == Wrap32(y)
  {
    var w := Wrap32(y);
    var b := (y - w) / TWO32;
    assert y - w == TWO32 * b;
    assert x - w == TWO32 * (d + b);
    MultipleMod(d + b);
    Wrap32Unique(x, w);
  }

  lemma MultipleMod(k: int)
    ensures (TWO32 * k) % TWO32 == 0
  {
  }

  lemma Wrap32AddMul(a: int, b: int)
    ensures Wrap32(Wrap32(a) + b) == Wrap32(a + b)
    ensures Wrap32(Wrap32(a) - b) == Wrap32(a - b)
    ensures Wrap32(Wrap32(a) * b) == Wrap32(a * b)
  {
    var w := Wrap32(a);
    var k := (a - w) / TWO32;
    assert a - w == TWO32 * k;
    Wrap32Shift(w + b, a + b, -k);
    Wrap32Shift(w - b, a - b, -k);
    assert w * b - a * b == (w - a) * b == TWO32 * (-k * b);
    Wrap32Shift(w * b, a * b, -k * b);
  }

  /** The 64-bit counterparts: a long fold may also wrap at every step or
      once at the end. */
  lemma Wrap64Shift(x: int, y: int, d: int)
    requires x - y == TWO64 * d
    ensures Wrap64(x) == Wrap64(y)
  {
    var w := Wrap64(y);
    var b := (y - w) / TWO64;
    assert y - w == TWO64 * b;
    assert x - w == TWO64 * (d + b);
    MultipleMod64(d + b);
    Wrap64Unique(x, w);
  }

  lemma MultipleMod64(k: int)
    ensures (TWO64 * k) % TWO64 == 0
  {
  }

  lemma Wrap64AddMul(a: int, b: int)
    ensures Wrap64(Wrap64(a) + b) == Wrap64(a + b)
    ensures Wrap64(Wrap64(a) - b) == Wrap64(a - b)
    ensures Wrap64(Wrap64(a) * b) == Wrap64(a * b)
  {
    var w := Wrap64(a);
    var k := (a - w) / TWO64;
    assert a - w == TWO64 * k;
    Wrap64Shift(w + b, a + b, -k);
    Wrap64Shift(w - b, a - b, -k);
    assert w * b - a * b == (w - a) * b == TWO64 * (-k * b);
    Wrap64Shift(w * b, a * b, -k * b);
  }

  // ---------------------------------------------------------------------------
  // Division that truncates toward zero (Java's `/` and `%` on integers)

  function Abs(x: int): nat { if x < 0 then -x else x }

  lemma MulSmall(k: int, s: int)
    requires s > 0 && -s < k * s < s
    ensures k == 0
  {
    assert k * s - s == (k - 1) * s && k * s + s == (k + 1) * s;
    assert k >= 1 ==> (k - 1) * s >= 0;
    assert k <= -1 ==> (k + 1) * s <= 0;
  }

  /** Euclidean division by a positive divisor is determined by its bounds. */
  lemma DivUnique(x: int, s: int, q: int)
    requires s > 0 && q * s <= x < q * s + s
    ensures x / s == q
  {
    var q', r' := x / s, x % s;
    assert x == q' * s + r' && 0 <= r' < s;
    assert (q' - q) * s == q' * s - q * s;
    MulSmall(q' - q, s);
  }

  lemma DivDown(d: int, s: int)
    requires s > 0 && d >= s
    ensures (d - s) / s == d / s - 1
  {
    var q := d / s;
    assert q * s <= d < q * s + s;
    assert (q - 1) * s == q * s - s;
    DivUnique(d - s, s, q - 1);
  }

  /** Java's integer quotient: the exact quotient rounded toward zero. */
  function TruncDiv(a: int, b: int): int
    requires b != 0
  {
    var q := Abs(a) / Abs(b);
    if (a < 0) == (b < 0) then q else -q
  }

  /** Java's integer remainder: what is left after TruncDiv. */
  function TruncRem(a: int, b: int): int
    requires b != 0
  {
    a - b * TruncDiv(a, b)
  }

  /** The defining properties of Java's remainder: it is smaller than the
      divisor in magnitude and carries the sign of the dividend. */
  lemma TruncRemBounds(a: int, b: int)
    requires b != 0
    ensures a == b * TruncDiv(a, b) + TruncRem(a, b)
    ensures Abs(TruncRem(a, b)) < Abs(b)
    ensures TruncRem(a, b) == 0 || (TruncRem(a, b) < 0 <==> a < 0)
  {
    var q := Abs(a) / Abs(b);
    var m := Abs(a) % Abs(b);
    assert Abs(a) == Abs(b) * q + m;
    if (a < 0) == (b < 0) {
      if a < 0 {
        assert b * q == -(Abs(b) * q);
        assert TruncRem(a, b) == -m;
      } else {
        assert b * q == Abs(b) * q;
        assert TruncRem(a, b) == m;
      }
    } else {
      if a < 0 {
        assert b * -q == -(Abs(b) * q);
        assert TruncRem(a, b) == -m;
      } else {
        assert b * -q == Abs(b) * q;
        assert TruncRem(a, b) == m;
      }
    }
  }

  /** The quotient is no larger than the dividend in magnitude. For int
      operands the quotient is an int except for MIN / -1, which exceeds
      MAX by one (DivisionExamples), and the remainder is always an int. */
  lemma TruncDivRange(a: int, b: int)
    requires b != 0
    ensures Abs(TruncDiv(a, b)) <= Abs(a)
    ensures IsInt(a) && IsInt(b) && !(a == INT_MIN && b == -1) ==> IsInt(TruncDiv(a, b))
    ensures IsInt(a) && IsInt(b) ==> IsInt(TruncRem(a, b))
  {
    TruncDivBound(a, b);
    if IsInt(a) && IsInt(b) {
      if !(a == INT_MIN && b == -1) {
        TruncDivFits(a, b);
      }
      TruncRemFits(a, b);
    }
  }

  lemma TruncDivBound(a: int, b: int)
    requires b != 0
    ensures Abs(TruncDiv(a, b)) <= Abs(a)
  {
    QuotientBound(Abs(a), Abs(b));
  }

  lemma TruncDivFits(a: int, b: int)
    requires b != 0 && IsInt(a) && IsInt(b) && !(a == INT_MIN && b == -1)
    ensures IsInt(TruncDiv(a, b))
  {
    var q := Abs(a) / Abs(b);
    QuotientBound(Abs(a), Abs(b));
    if a == INT_MIN && b == 1 {
      assert TruncDiv(a, b) == a;
    } else if a == INT_MIN {
      assert q <= 0x4000_0000;
    }
  }

  lemma TruncRemFits(a: int, b: int)
    requires b != 0 && IsInt(b)
    ensures IsInt(TruncRem(a, b))
  {
    TruncRemBounds(a, b);
  }

  /** n / d is at most n, and at most half of n once d >= 2. */
  lemma QuotientBound(n: nat, d: int)
    requires d >= 1
    ensures n / d <= n
    ensures d >= 2 ==> 2 * (n / d) <= n
  {
    var q := n / d;
    assert d * q <= n;
    MulAtLeast(q, d, 1);
    if d >= 2 {
      MulAtLeast(q, d, 2);
    }
  }

  lemma MulAtLeast(q: nat, d: int, c: int)
    requires d >= c
    ensures c * q <= d * q
  {
  }

  /** Java `int` arithmetic: the mathematical result wrapped to 32 bits. */
  function IntAdd(a: int, b: int): int { Wrap32(a + b) }
  function IntSub(a: int, b: int): int { Wrap32(a - b) }
  function IntMul(a: int, b: int): int { Wrap32(a * b) }

  /** `a / b` on Java ints: throws on a zero divisor, and MIN / -1 wraps to MIN. */
  function IntDiv(a: int, b: int): Result<int>
  {
    if b == 0 then Throw(Arithmetic) else Ok(Wrap32(TruncDiv(a, b)))
  }

  /** `a % b` on Java ints: throws on a zero divisor. */
  function IntRem(a: int, b: int): Result<int>
  {
    if b == 0 then Throw(Arithmetic) else Ok(Wrap32(TruncRem(a, b)))
  }

  function LongAdd(a: int, b: int): int { Wrap64(a + b) }
  function LongSub(a: int, b: int): int { Wrap64(a - b) }
  function LongMul(a: int, b: int): int { Wrap64(a * b) }

  function LongDiv(a: int, b: int): Result<int>
  {
    if b == 0 then Throw(Arithmetic) else Ok(Wrap64(TruncDiv(a, b)))
  }

  /** Java's division is not Dafny's: on negative operands it rounds toward
      zero, and the remainder follows the dividend's sign. */
  lemma DivisionExamples()
    ensures IntDiv(-7, 2) == Ok(-3) && -7 / 2 == -4
    ensures IntRem(-7, 2) == Ok(-1) && -7 % 2 == 1
    ensures IntRem(7, -2) == Ok(1)
    ensures IntDiv(INT_MIN, -1) == Ok(INT_MIN)
    ensures IntDiv(5, 0) == Throw(Arithmetic) && IntRem(5, 0) == Throw(Arithmetic)
  {
    WrapInRange(-3);
    WrapInRange(-1);
    WrapInRange(1);
    Wrap32Unique(-INT_MIN, INT_MIN);
  }

  // ---------------------------------------------------------------------------
  // Decimal text: Integer.toString / Long.toString and parseInt / parseLong

  predicate IsDigit(c: char) { '0' <= c <= '9' }

  predicate AllDigits(s: string) { forall i :: 0 <= i < |s| ==> IsDigit(s[i]) }

  function DigitChar(d: nat): char
    requires d < 10
  {
    "0123456789"[d]
  }

  /** The number a run of decimal digits spells, most significant first. */
  function DigitsValue(s: string): nat
    requires AllDigits(s)
  {
    if s == [] then 0
    else DigitsValue(s[..|s| - 1]) * 10 + (s[|s| - 1] as int - '0' as int)
  }

  /** The shortest decimal spelling of n. */
  function ShowNat(n: nat): (r: string)
    ensures |r| > 0 && AllDigits(r)
  {
    if n < 10 then [DigitChar(n)] else ShowNat(n / 10) + [DigitChar(n % 10)]
  }

  /** Integer.toString and Long.toString. */
  function ShowInt(x: int): (r: string)
  {
    if x < 0 then "-" + ShowNat(-x) else ShowNat(x)
  }

  /** Integer.parseInt(s) when (lo, hi) is the int range, Long.parseLong(s)
      when it is the long range: an optional sign, then one or more digits,
      and the value must lie in range. */
  function ParseDecimal(s: string, lo: int, hi: int): Result<int>
  {
    if |s| == 0 then Throw(NumberFormat)
    else
      var negative := s[0] == '-';
      var digits := if s[0] == '-' || s[0] == '+' then s[1..] else s;
      if |digits| == 0 || !AllDigits(digits) then Throw(NumberFormat)
      else
        var v: int := if negative then -(DigitsValue(digits) as int) else DigitsValue(digits);
        if lo <= v <= hi then Ok(v) else Throw(NumberFormat)
  }

  function ParseInt(s: string): Result<int> { ParseDecimal(s, INT_MIN, INT_MAX) }
  function ParseLong(s: string): Result<int> { ParseDecimal(s, LONG_MIN, LONG_MAX) }

  lemma {:induction false} DigitsOfShowNat(n: nat)
    ensures DigitsValue(ShowNat(n)) == n
  {
    var s := ShowNat(n);
    if n >= 10 {
      DigitsOfShowNat(n / 10);
      assert s[..|s| - 1] == ShowNat(n / 10);
    }
  }

  /** Reading back what toString printed gives the number again exactly when
      it is in range; otherwise parsing throws NumberFormatException. */
  lemma ParseShow(x: int, lo: int, hi: int)
    ensures ParseDecimal(ShowInt(x), lo, hi) == if lo <= x <= hi then Ok(x) else Throw(NumberFormat)
  {
    if x < 0 {
      ParseShowNegative(x, lo, hi);
    } else {
      var s := ShowInt(x);
      DigitsOfShowNat(x);
      assert '0' <= s[0] <= '9';
    }
  }

  lemma ParseShowNegative(x: int, lo: int, hi: int)
    requires x < 0
    ensures ParseDecimal(ShowInt(x), lo, hi) == if lo <= x <= hi then Ok(x) else Throw(NumberFormat)
  {
    var d := ShowNat(-x);
    DigitsOfShowNat(-x);
    ParseMinusDigits(d, lo, hi);
  }

  lemma ParseMinusDigits(d: string, lo: int, hi: int)
    requires |d| > 0 && AllDigits(d)
    ensures var v := -(DigitsValue(d) as int);
            ParseDecimal("-" + d, lo, hi) == if lo <= v <= hi then Ok(v) else Throw(NumberFormat)
  {
    assert ("-" + d)[1..] == d;
  }

  /** The text between the brackets of `AbstractCollection.toString()`: the
      element texts appended one by one, with ", " before every element but
      the first. */
  function CommaJoined(parts: seq<string>): string
  {
    if parts == [] then ""
    else if |parts| == 1 then parts[0]
    else CommaJoined(parts[..|parts| - 1]) + ", " + parts[|parts| - 1]
  }

  /** The same text read from the front: the first element, then ", " and
      the others. */
  lemma {:induction false} CommaJoinedCons(p: string, parts: seq<string>)
    ensures parts == [] ==> CommaJoined([p] + parts) == p
    ensures parts != [] ==> CommaJoined([p] + parts) == p + ", " + CommaJoined(parts)
    decreases |parts|
  {
    var all := [p] + parts;
    if |parts| >= 2 {
      var init := parts[..|parts| - 1];
      assert all[..|all| - 1] == [p] + init;
      CommaJoinedCons(p, init);
      assert CommaJoined(all) == p + ", " + CommaJoined(init) + ", " + parts[|parts| - 1];
    } else if |parts| == 1 {
      assert all[..|all| - 1] == [p];
    }
  }

  // ---------------------------------------------------------------------------
  // The counting loop `for (; a <= last; a += step)` (`>=` for a negative
  // step) over an int or a long, as both interpreters run it for `for` and
  // `range`

  /** The loop condition. */
  predicate InRange(a: int, last: int, step: int)
  {
    if step >= 0 then a <= last else a >= last
  }

  /** The loop variable's type: long (64 bits) or int (32 bits). */
  function WrapTo(long: bool, x: int): int { if long then Wrap64(x) else Wrap32(x) }

  predicate Fits(long: bool, x: int) { if long then IsLong(x) else IsInt(x) }

  /** The values the loop variable takes, in order; every iteration uses one
      unit of fuel. */
  function Steps(a: int, last: int, step: int, long: bool, fuel: nat): Result<seq<int>>
    decreases fuel
  {
    if !InRange(a, last, step) then Ok([])
    else if fuel == 0 then Err(OutOfFuel)
    else
      var rest :- Steps(WrapTo(long, a + step), last, step, long, fuel - 1);
      Ok([a] + rest)
  }

  /** How many values the loop visits when no value wraps around. */
  function Count(a: int, last: int, step: int): nat
    requires step != 0
  {
    if !InRange(a, last, step) then 0 else Abs(last - a) / Abs(step) + 1
  }

  /** a, a + step, a + 2 step, ... (n values). */
  function Progression(a: int, step: int, n: nat): (r: seq<int>)
    ensures |r| == n && forall k :: 0 <= k < n ==> r[k] == a + k * step
  {
    seq(n, k => a + k * step)
  }

  lemma ProgressionStep(a: int, step: int, n: nat)
    requires n > 0
    ensures Progression(a, step, n) == [a] + Progression(a + step, step, n - 1)
  {
    var p, q := Progression(a, step, n), Progression(a + step, step, n - 1);
    forall k | 0 <= k < n - 1
      ensures p[k + 1] == q[k]
    {
      assert (k + 1) * step == k * step + step;
    }
  }

  /** No value visited can step past the range of the type. */
  predicate NoWrap(long: bool, last: int, step: int)
  {
    Fits(long, last + step)
  }

  lemma CountStep(a: int, last: int, step: int)
    requires step != 0 && InRange(a, last, step)
    ensures Count(a + step, last, step) + 1 == Count(a, last, step)
  {
    var d := Abs(last - a);
    var s := Abs(step);
    if InRange(a + step, last, step) {
      assert Abs(last - (a + step)) == d - s;
      DivDown(d, s);
    } else {
      assert d < s;
      DivUnique(d, s, 0);
    }
  }

  /** With a non-zero step that cannot wrap around, the loop visits start,
      start + step, ... up to end inclusive (down to end for a negative
      step). */
  lemma {:induction false} StepsValues(a: int, last: int, step: int, long: bool, fuel: nat)
    requires step != 0 && Fits(long, a) && Fits(long, last) && NoWrap(long, last, step)
    requires fuel >= Count(a, last, step)
    ensures Steps(a, last, step, long, fuel) == Ok(Progression(a, step, Count(a, last, step)))
    decreases fuel
  {
    var n := Count(a, last, step);
    if n > 0 {
      var next := a + step;
      assert Fits(long, next);
      WrapInRange(next);
      CountStep(a, last, step);
      StepsValues(next, last, step, long, fuel - 1);
      ProgressionStep(a, step, n);
    }
  }

  /** The loop never finishes when the step is 0, or when end is the
      largest value of the type (the smallest, for a negative step): the
      variable wraps around instead of passing it. */
  lemma {:induction false} StepsNeverEnd(a: int, last: int, step: int, long: bool, fuel: nat)
    requires Fits(long, a) && InRange(a, last, step)
    requires step == 0
             || (step > 0 && last == (if long then LONG_MAX else INT_MAX))
             || (step < 0 && last == (if long then LONG_MIN else INT_MIN))
    ensures Steps(a, last, step, long, fuel) == Err(OutOfFuel)
    decreases fuel
  {
    if fuel > 0 {
      if step == 0 {
        WrapInRange(a);
      }
      StepsNeverEnd(WrapTo(long, a + step), last, step, long, fuel - 1);
    }
  }

  /** Every value visited costs one unit of fuel. */
  lemma {:induction false} StepsFuel(a: int, last: int, step: int, long: bool, fuel: nat, vs: seq<int>)
    requires Steps(a, last, step, long, fuel) == Ok(vs)
    ensures |vs| <= fuel
    decreases fuel
  {
    if InRange(a, last, step) {
      var rest :| Steps(WrapTo(long, a + step), last, step, long, fuel - 1) == Ok(rest) && vs == [a] + rest;
      StepsFuel(WrapTo(long, a + step), last, step, long, fuel - 1, rest);
    }
  }
}
