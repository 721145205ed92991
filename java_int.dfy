/** Java's 32-bit `int`: the type of every numeric field of the archive
    entities, its wrap-around increment, its decimal rendering
    (`String.valueOf(int)`, also used by the builder's `attribute(String, int)`)
    and the decimal parser `Integer.valueOf(String)`. */
module JavaInt {
  import opened Base

  const MIN: int := -0x8000_0000
  const MAX: int := 0x7fff_ffff
  const MODULUS: int := 0x1_0000_0000

  newtype i32 = x: int | -0x8000_0000 <= x < 0x8000_0000

  /** The Java int with the same value as `n` modulo 2^32 (two's complement truncation). */
  function Wrap(n: int): (r: i32)
    ensures MIN <= n <= MAX ==> r as int == n
    ensures (r as int - n) % MODULUS == 0
  {
    var m := n % MODULUS;
    if m <= MAX then m as i32 else (m - MODULUS) as i32
  }

  /** `x++` on a Java int: MAX goes round to MIN. */
  function Inc(x: i32): i32 {
    if x as int == MAX then MIN as i32 else x + 1
  }

  /** `x++` is the increment taken modulo 2^32. */
  lemma IncIsWrap(x: i32)
    ensures Inc(x) == Wrap(x as int + 1)
  {
  }

  /** `x++` applied `n` times. */
  function IncN(x: i32, n: nat): i32
    decreases n
  {
    if n == 0 then x else IncN(Inc(x), n - 1)
  }

  /** `n` increments add `n` modulo 2^32. */
  lemma {:induction false} IncNIsWrap(x: i32, n: nat)
    ensures IncN(x, n) == Wrap(x as int + n)
    decreases n
  {
    if n == 0 {
      assert Wrap(x as int + 0) == x;
    } else {
      IncNIsWrap(Inc(x), n - 1);
      IncIsWrap(x);
      WrapShift(x as int + 1, n - 1, x as int + n);
    }
  }

  /** Counting up from 0 `n` times gives `n` as a Java int. */
  lemma CountFromZero(n: nat)
    ensures IncN(0, n) == Wrap(n)
  {
    IncNIsWrap(0, n);
  }

  /** Wrapping an intermediate sum changes nothing: Wrap(Wrap(a) + b) == Wrap(a + b). */
  lemma WrapAdd(a: int, b: int)
    ensures Wrap(Wrap(a) as int + b) == Wrap(a + b)
  {
    var k := a / MODULUS;
    assert a % MODULUS == a - k * MODULUS;
    var w := Wrap(a) as int;
    var j := if a % MODULUS <= MAX then k else k + 1;
    assert w == a - j * MODULUS;
    assert w + b == (a + b) + (-j) * MODULUS;
    ModShift(a + b, -j);
  }

  /** WrapAdd with the sum named: Wrap(Wrap(a) + b) == Wrap(c) when a + b == c. */
  lemma WrapShift(a: int, b: int, c: int)
    requires a + b == c
    ensures Wrap(Wrap(a) as int + b) == Wrap(c)
  {
    WrapAdd(a, b);
  }

  lemma ModShift(b: int, k: int)
    ensures (b + k * MODULUS) % MODULUS == b % MODULUS
  {
  }

  predicate IsDigit(c: char) {
    '0' <= c <= '9'
  }

  predicate AllDigits(s: string) {
    forall i :: 0 <= i < |s| ==> IsDigit(s[i])
  }

  function DigitChar(d: nat): (c: char)
    requires d < 10
    ensures IsDigit(c) && c as int - '0' as int == d
  {
    ('0' as int + d) as char
  }

  /** Decimal digits of a natural number, most significant first, no leading zeros. */
  function NatDecimal(n: nat): (s: string)
    ensures |s| > 0 && AllDigits(s)
    ensures |s| > 1 ==> s[0] != '0'
    decreases n
  {
    if n < 10 then [DigitChar(n)] else NatDecimal(n / 10) + [DigitChar(n % 10)]
  }

  /** `String.valueOf(int)`: an optional minus sign followed by the digits. */
  function Decimal(x: int): (s: string)
    ensures |s| > 0 && s[0] != '+'
    ensures s[0] == '-' <==> x < 0
  {
    if x < 0 then ['-'] + NatDecimal(-x) else NatDecimal(x)
  }

  /** The value of a string of decimal digits. */
  function DigitsValue(s: string): nat
    requires AllDigits(s)
    decreases |s|
  {
    if s == [] then 0 else DigitsValue(s[..|s| - 1]) * 10 + (s[|s| - 1] as int - '0' as int)
  }

  /** `Integer.valueOf(String)` on ASCII input: an optional `-` or `+` followed by
      at least one ASCII digit, whose value must fit in an int; `null` and every
      other ASCII string throw NumberFormatException. Java also accepts the other
      Unicode decimal digits (`Character.digit`); this model rejects them. */
  function ParseInt(s: Option<string>): (r: Result<i32>)
    ensures r.Failure? ==> r.error == NumberFormat
    ensures r.Success? ==> s.Some? && |s.value| > 0
    ensures r.Success? ==> (IsDigit(s.value[0]) || s.value[0] == '-' || s.value[0] == '+') && AllDigits(s.value[1..])
    ensures s.Some? && s.value != [] && AllDigits(s.value) && DigitsValue(s.value) <= MAX
            ==> r == Success(DigitsValue(s.value) as i32)
  {
    match s
    case None => Failure(NumberFormat)
    case Some(t) =>
      if t == [] then Failure(NumberFormat)
      else
        var digits := if t[0] == '-' || t[0] == '+' then t[1..] else t;
        if digits == [] || !AllDigits(digits) then Failure(NumberFormat)
        else
          var v: int := if t[0] == '-' then -(DigitsValue(digits) as int) else DigitsValue(digits);
          if MIN <= v <= MAX then Success(v as i32) else Failure(NumberFormat)
  }

  lemma {:induction false} DigitsValueOfDecimal(n: nat)
    ensures DigitsValue(NatDecimal(n)) == n
    decreases n
  {
    if n >= 10 {
      var s := NatDecimal(n);
      DigitsValueOfDecimal(n / 10);
      assert s[..|s| - 1] == NatDecimal(n / 10);
    }
  }

  /** Integer.valueOf(String.valueOf(x)) == x for every Java int. */
  lemma ParseDecimal(x: i32)
    ensures ParseInt(Some(Decimal(x as int))) == Success(x)
  {
    if x < 0 {
      DigitsValueOfDecimal(-(x as int));
      assert Decimal(x as int)[1..] == NatDecimal(-(x as int));
    } else {
      DigitsValueOfDecimal(x as int);
    }
  }
}
