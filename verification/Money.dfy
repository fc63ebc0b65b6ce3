/** Money as whole units and nanos, in 64 and 32 bits, and its addition. */
module MoneyUtils {
  import opened Proto

  const INT64_MAX := 0x7FFF_FFFF_FFFF_FFFF
  const INT64_MIN := -0x8000_0000_0000_0000
  const BILLION := 1_000_000_000

  /** Two's complement, 64 bits. */
  function Wrap64(x: int): (r: int)
    ensures INT64_MIN <= r <= INT64_MAX && (INT64_MIN <= x <= INT64_MAX ==> r == x)
  {
    (x - INT64_MIN) % 0x1_0000_0000_0000_0000 + INT64_MIN
  }

  const INT32_MAX := 0x7FFF_FFFF
  const INT32_MIN := -0x8000_0000

  function Wrap32(x: int): (r: int)
    ensures INT32_MIN <= r <= INT32_MAX && (INT32_MIN <= x <= INT32_MAX ==> r == x)
  {
    (x - INT32_MIN) % 0x1_0000_0000 + INT32_MIN
  }

  newtype int64 = x: int | INT64_MIN <= x <= INT64_MAX
  newtype int32 = x: int | INT32_MIN <= x <= INT32_MAX

  datatype Money = Money(currency: string, units: int64, nanos: int32)

  predicate Valid(m: Money) {
    && |m.currency| == 3
    && !(m.units > 0 && m.nanos < 0) && !(m.units < 0 && m.nanos > 0)
    && -999_999_999 <= m.nanos <= 999_999_999
  }

  /** The amount in nanos. */
  function Amount(m: Money): int { m.units as int * BILLION + m.nanos as int }

  method ValidateMoney(m: Money) returns (code: Code)
    ensures code == (if Valid(m) then Ok else InvalidArgument)
  {
    if m.currency == "" || |m.currency| != 3 {
      return InvalidArgument;
    }
    if (m.units > 0 && m.nanos < 0) || (m.units < 0 && m.nanos > 0) {
      return InvalidArgument;
    }
    if m.nanos < -999_999_999 || m.nanos > 999_999_999 {
      return InvalidArgument;
    }
    return Ok;
  }

  /** The sign of a valid amount. */
  function GetAmountSign(m: Money): (s: int)
    ensures Valid(m) ==> (s == 1 <==> Amount(m) > 0) && (s == -1 <==> Amount(m) < 0) && (s == 0 <==> Amount(m) == 0)
  {
    if m.units > 0 then 1
    else if m.units < 0 then -1
    else if m.nanos > 0 then 1
    else if m.nanos < 0 then -1
    else 0
  }

  const MOST := 999_999_999

  /** Nanos and carry. */
  function SumNanos(a: Money, b: Money): (int, int) {
    var n := Wrap32(a.nanos as int + b.nanos as int);
    if n >= BILLION then (n - BILLION, 1) else if n <= -BILLION then (n + BILLION, -1) else (n, 0)
  }

  /** Units and nanos of which neither contradicts the other's sign. */
  function Aligned(units: int, nanos: int): (int, int) {
    if units > 0 && nanos < 0 then (units - 1, nanos + BILLION)
    else if units < 0 && nanos > 0 then (units + 1, nanos - BILLION)
    else (units, nanos)
  }

  /** `TryAddMoney` on amounts of one currency, in 64-bit and 32-bit arithmetic that wraps: code, units and nanos. */
  function Sum(a: Money, b: Money): (Code, int, int) {
    var (nanos, carry) := SumNanos(a, b);
    var noCarry := Wrap64(a.units as int + b.units as int);
    var (units, adjusted) := Aligned(Wrap64(noCarry + carry), nanos);
    if GetAmountSign(a) > 0 && GetAmountSign(b) > 0 && units <= 0 then (OutOfRange, INT64_MAX, MOST)
    else if GetAmountSign(a) < 0 && GetAmountSign(b) < 0 && (noCarry >= 0 || units >= 0) then
        (OutOfRange, INT64_MIN, -MOST)
    else (Ok, units, adjusted)
  }

  method TryAddMoney(a: Money, b: Money) returns (code: Code, sum: Money)
    ensures a.currency != b.currency ==> code == InvalidArgument && sum == Money("", 0, 0)
    ensures a.currency == b.currency ==>
              sum.currency == a.currency && (code, sum.units as int, sum.nanos as int) == Sum(a, b)
  {
    hide Wrap64, Wrap32, GetAmountSign;
    if a.currency != b.currency {
      return InvalidArgument, Money("", 0, 0);
    }
    var carry := 0;
    var sumNanos := Wrap32(a.nanos as int + b.nanos as int);
    if sumNanos >= BILLION {
      carry := 1;
      sumNanos := sumNanos - BILLION;
    } else if sumNanos <= -BILLION {
      carry := -1;
      sumNanos := sumNanos + BILLION;
    }
    var sumUnitsNoCarry := Wrap64(a.units as int + b.units as int);
    var sumUnits := Wrap64(sumUnitsNoCarry + carry);
    if sumUnits > 0 && sumNanos < 0 {
      sumUnits := sumUnits - 1;
      sumNanos := sumNanos + BILLION;
    } else if sumUnits < 0 && sumNanos > 0 {
      sumUnits := sumUnits + 1;
      sumNanos := sumNanos - BILLION;
    }
    var signA, signB := GetAmountSign(a), GetAmountSign(b);
    if signA > 0 && signB > 0 && sumUnits <= 0 {
      return OutOfRange, Money(a.currency, INT64_MAX as int64, MOST as int32);
    }
    if signA < 0 && signB < 0 && (sumUnitsNoCarry >= 0 || sumUnits >= 0) {
      return OutOfRange, Money(a.currency, INT64_MIN as int64, -MOST as int32);
    }
    return Ok, Money(a.currency, sumUnits as int64, sumNanos as int32);
  }

  method SaturatedAddMoney(a: Money, b: Money) returns (sum: Money)
    requires a.currency == b.currency
    ensures sum.currency == a.currency && (sum.units as int, sum.nanos as int) == (Sum(a, b).1, Sum(a, b).2)
  {
    var code;
    code, sum := TryAddMoney(a, b);
  }

  // ----- Exact or saturated -----

  const LARGEST := INT64_MAX * BILLION + MOST
  const SMALLEST := INT64_MIN * BILLION - MOST

  /**
   * What an addition should give: the exact amount where it can be represented, and otherwise the extreme it lies
   * beyond.
   */
  function Exact(a: Money, b: Money): (Code, int) {
    var t := Amount(a) + Amount(b);
    if t > LARGEST then (OutOfRange, LARGEST) else if t < SMALLEST then (OutOfRange, SMALLEST) else (Ok, t)
  }

  /**
   * Both amounts are less than one unit, of one sign, and their sum does not carry into the units, or they are
   * negative.
   */
  predicate Spurious(a: Money, b: Money) {
    a.units == 0 && b.units == 0
    && ((a.nanos > 0 && b.nanos > 0 && a.nanos as int + b.nanos as int < BILLION) || (a.nanos < 0 && b.nanos < 0))
  }

  lemma WrapsOnce(x: int)
    requires 2 * INT64_MIN - 1 <= x <= 2 * INT64_MAX + 1
    ensures Wrap64(x) == if x > INT64_MAX then x - 0x1_0000_0000_0000_0000
        else if x < INT64_MIN then x + 0x1_0000_0000_0000_0000 else x
  {
  }

  /** The sum of valid amounts is a valid amount. */
  lemma SumIsValid(a: Money, b: Money)
    requires Valid(a) && Valid(b) && a.currency == b.currency
    ensures var (code, units, nanos) := Sum(a, b);
            && INT64_MIN <= units <= INT64_MAX && -MOST <= nanos <= MOST
            && !(units > 0 && nanos < 0) && !(units < 0 && nanos > 0)
  {
    WrapsOnce(a.units as int + b.units as int);
    WrapsOnce(Wrap64(a.units as int + b.units as int) + SumNanos(a, b).1);
    hide Wrap64, Wrap32;
  }

  /** Addition of valid amounts of one currency is exact or saturated if and only if it is not spurious. */
  lemma ExactUnlessSpurious(a: Money, b: Money)
    requires Valid(a) && Valid(b) && a.currency == b.currency
    ensures var (code, units, nanos) := Sum(a, b);
            (code, units * BILLION + nanos) == Exact(a, b) <==> !Spurious(a, b)
  {
    WrapsOnce(a.units as int + b.units as int);
    WrapsOnce(Wrap64(a.units as int + b.units as int) + SumNanos(a, b).1);
    hide Wrap64, Wrap32;
  }

  /** Thirty and forty hundredths: the sum is reported as an overflow. */
  lemma SmallAmountsOverflow()
    ensures var a, b := Money("USD", 0, 300_000_000), Money("USD", 0, 400_000_000);
            Valid(a) && Valid(b) && Sum(a, b) == (OutOfRange, INT64_MAX, MOST) && Exact(a, b) == (Ok, 700_000_000)
  {
  }
}
