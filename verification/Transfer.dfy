/** Transfer: how long a body may take, computed in floating point and cut back to 64 bits. A float64
    is a real number, and every operation on one is followed by some rounding. */
module Transfer {
  import opened Options

  const MAX_DURATION: int := 0x7FFF_FFFF_FFFF_FFFF
  const TWO_63: real := 9223372036854775808.0
  const SECOND: real := 1000000000.0
  /** 2^-53, the relative error of rounding to the nearest float64. */
  const EPSILON: real := 1.0 / 9007199254740992.0

  datatype Transfer = Transfer(limit: int, rate: int, grace: int, read: bool, write: bool)

  predicate Valid(t: Transfer) {
    0 <= t.limit <= MAX_DURATION && 0 < t.rate <= MAX_DURATION && 0 <= t.grace <= MAX_DURATION
  }

  /** Rounding of the values met here, none negative: monotone, and within a relative EPSILON. */
  ghost predicate IsRounding(round: real -> real) {
    && (forall x | x >= 0.0 :: Within(round(x), x, EPSILON))
    && (forall x, y | 0.0 <= x <= y :: round(x) <= round(y))
  }

  predicate Within(x: real, exact: real, error: real) {
    exact * (1.0 - error) <= x <= exact * (1.0 + error)
  }

  /** Exact arithmetic is one such rounding. */
  lemma ExactIsRounding()
    ensures IsRounding((x: real) => x)
  {}

  /** NewTransfer; None is the panic. */
  function NewTransfer(limit: int, rate: int, grace: int): (t: Option<Transfer>)
    ensures t.None? <==> limit < 0 || rate <= 0 || grace < 0
    ensures t.Some? ==> t.value.limit == limit && t.value.rate == rate && t.value.grace == grace
    ensures t.Some? ==> t.value.read && t.value.write
    ensures t.Some? && limit <= MAX_DURATION && rate <= MAX_DURATION && grace <= MAX_DURATION ==> Valid(t.value)
  {
    if limit < 0 || rate <= 0 || grace < 0 then None else Some(Transfer(limit, rate, grace, true, true))
  }

  /** Config.Transfer, on a validated Config's timeouts and rate: the longer timeout is the grace, and
      a disabled timeout leaves its deadline alone. */
  function FromConfig(readTimeout: int, writeTimeout: int, rate: int, limit: int): (t: Option<Transfer>)
    requires readTimeout >= 0 && writeTimeout >= 0 && rate > 0
    ensures t.None? <==> limit < 0
    ensures t.Some? ==> t.value.limit == limit && t.value.rate == rate
    ensures t.Some? ==> t.value.grace >= readTimeout && t.value.grace >= writeTimeout
    ensures t.Some? ==> t.value.grace == readTimeout || t.value.grace == writeTimeout
    ensures t.Some? ==> (t.value.read <==> readTimeout > 0) && (t.value.write <==> writeTimeout > 0)
  {
    var t := NewTransfer(limit, rate, if readTimeout > writeTimeout then readTimeout else writeTimeout);
    if t.None? then None else Some(t.value.(read := readTimeout > 0, write := writeTimeout > 0))
  }

  // ---------------------------------------------------------------- Duration

  function Clamped(t: Transfer, size: int): int {
    if size < 0 || size > t.limit then t.limit else size
  }

  lemma RoundingBounds(round: real -> real, x: real)
    requires IsRounding(round) && x >= 0.0
    ensures Within(round(x), x, EPSILON) && round(x) >= 0.0
    ensures x > 0.0 ==> round(x) > 0.0
  {
    assert Within(round(x), x, EPSILON);
    assert 1.0 - EPSILON > 0.0;
  }

  /** The time the body takes at the rate, in seconds: size and rate converted, and their quotient. */
  ghost function Seconds(round: real -> real, size: int, rate: int): (q: real)
    requires IsRounding(round) && size >= 0 && rate > 0
    ensures q >= 0.0
  {
    RoundingBounds(round, size as real);
    RoundingBounds(round, rate as real);
    QuotientNonNegative(round(size as real), round(rate as real));
    RoundingBounds(round, round(size as real) / round(rate as real));
    round(round(size as real) / round(rate as real))
  }

  lemma QuotientNonNegative(a: real, b: real)
    requires a >= 0.0 && b > 0.0
    ensures a / b >= 0.0
  {}

  /** The sum in nanoseconds; a fused multiply-add skips the rounding of the product. */
  ghost function Sum(round: real -> real, fused: bool, t: Transfer, q: real): (d: real)
    requires IsRounding(round) && Valid(t) && q >= 0.0
    ensures d >= 0.0
  {
    var product := q * SECOND;
    RoundingBounds(round, product);
    RoundingBounds(round, t.grace as real);
    var sum := round(t.grace as real) + if fused then product else round(product);
    RoundingBounds(round, sum);
    round(sum)
  }

  ghost function Nanoseconds(round: real -> real, fused: bool, t: Transfer, size: int): (d: real)
    requires IsRounding(round) && Valid(t)
    ensures d >= 0.0
  {
    Sum(round, fused, t, Seconds(round, Clamped(t, size), t.rate))
  }

  /** Back to 64 bits: truncated, and saturated from 2^63 on, which is math.MaxInt64 as a float64. */
  function Cut(d: real): (n: int)
    requires d >= 0.0
    ensures 0 <= n <= MAX_DURATION && (d < TWO_63 ==> d - 1.0 < n as real <= d)
  {
    if d >= TWO_63 then MAX_DURATION else d.Floor
  }

  ghost function DurationOf(round: real -> real, fused: bool, t: Transfer, size: int): int
    requires IsRounding(round) && Valid(t)
  {
    Cut(Nanoseconds(round, fused, t, size))
  }

  /** Duration; None is the panic of check on the zero Transfer. */
  method Duration(round: real -> real, fused: bool, t: Transfer, size0: int) returns (d: Option<int>)
    requires IsRounding(round) && (Valid(t) || t.rate == 0)
    ensures d == if t.rate == 0 then None else Some(DurationOf(round, fused, t, size0))
    ensures d.Some? ==> 0 <= d.value <= MAX_DURATION
  {
    if t.rate == 0 {
      return None;
    }
    var size := size0;
    if size < 0 || size > t.limit {
      size := t.limit;
    }
    var sum := ComputeSum(round, fused, t, size);
    if sum >= TWO_63 {
      return Some(MAX_DURATION);
    }
    return Some(sum.Floor);
  }

  /** The floating-point expression, operation by operation. */
  method ComputeSum(round: real -> real, fused: bool, t: Transfer, size: int) returns (sum: real)
    requires IsRounding(round) && Valid(t) && size >= 0
    ensures sum == Sum(round, fused, t, Seconds(round, size, t.rate))
  {
    RoundingBounds(round, t.rate as real);
    var q := round(round(size as real) / round(t.rate as real));
    assert q == Seconds(round, size, t.rate);
    var product := if fused then q * SECOND else round(q * SECOND);
    SumIs(round, fused, t, q, product);
    sum := round(round(t.grace as real) + product);
  }

  lemma SumIs(round: real -> real, fused: bool, t: Transfer, q: real, product: real)
    requires IsRounding(round) && Valid(t) && q >= 0.0
    requires product == if fused then q * SECOND else round(q * SECOND)
    ensures Sum(round, fused, t, q) == round(round(t.grace as real) + product)
  {}

  // ---------------------------------------------------------------- order

  lemma QuotientMonotone(a: real, b: real, c: real)
    requires 0.0 <= a <= b && c > 0.0
    ensures a / c <= b / c
  {
    assert b / c - a / c == (b - a) / c;
    QuotientNonNegative(b - a, c);
  }

  lemma QuotientAntitone(a: real, b: real, c: real)
    requires 0.0 <= a && 0.0 < b <= c
    ensures a / c <= a / b
  {
    var x, y := a / b, a / c;
    assert x * b == a == y * c;
    QuotientNonNegative(a, c);
    if y > x {
      ProductMonotone(b, c, y);
      assert y * b > x * b;
    }
  }

  lemma ProductMonotone(a: real, b: real, c: real)
    requires a <= b && c >= 0.0
    ensures a * c <= b * c
  {}

  lemma SumMonotone(round: real -> real, fused: bool, t: Transfer, q: real, r: real)
    requires IsRounding(round) && Valid(t) && 0.0 <= q <= r
    ensures Sum(round, fused, t, q) <= Sum(round, fused, t, r)
  {
    var g := round(t.grace as real);
    RoundingBounds(round, t.grace as real);
    RoundingBounds(round, q * SECOND);
    assert q * SECOND <= r * SECOND;
    assert round(q * SECOND) <= round(r * SECOND);
    assert g + q * SECOND <= g + r * SECOND;
    assert g + round(q * SECOND) <= g + round(r * SECOND);
  }

  lemma CutMonotone(d: real, e: real)
    requires 0.0 <= d <= e
    ensures Cut(d) <= Cut(e)
  {}

  lemma SecondsMonotone(round: real -> real, a: int, b: int, rate: int)
    requires IsRounding(round) && 0 <= a <= b && rate > 0
    ensures Seconds(round, a, rate) <= Seconds(round, b, rate)
  {
    var x, y, r := a as real, b as real, rate as real;
    RoundingBounds(round, x);
    RoundingBounds(round, r);
    assert round(x) <= round(y);
    QuotientMonotone(round(x), round(y), round(r));
    QuotientNonNegative(round(x), round(r));
  }

  lemma SecondsAntitone(round: real -> real, size: int, slow: int, fast: int)
    requires IsRounding(round) && size >= 0 && 0 < slow <= fast
    ensures Seconds(round, size, fast) <= Seconds(round, size, slow)
  {
    var x, r, f := size as real, slow as real, fast as real;
    RoundingBounds(round, x);
    RoundingBounds(round, r);
    RoundingBounds(round, f);
    assert round(r) <= round(f);
    QuotientAntitone(round(x), round(r), round(f));
    QuotientNonNegative(round(x), round(f));
  }

  /** A larger body, as the limit caps it, never gets less time. */
  lemma MonotoneInSize(round: real -> real, fused: bool, t: Transfer, a: int, b: int)
    requires IsRounding(round) && Valid(t) && Clamped(t, a) <= Clamped(t, b)
    ensures DurationOf(round, fused, t, a) <= DurationOf(round, fused, t, b)
  {
    SecondsMonotone(round, Clamped(t, a), Clamped(t, b), t.rate);
    SumMonotone(round, fused, t, Seconds(round, Clamped(t, a), t.rate), Seconds(round, Clamped(t, b), t.rate));
    CutMonotone(Nanoseconds(round, fused, t, a), Nanoseconds(round, fused, t, b));
  }

  /** A faster rate never allows more time. */
  lemma AntitoneInRate(round: real -> real, fused: bool, t: Transfer, faster: int, size: int)
    requires IsRounding(round) && Valid(t) && t.rate <= faster <= MAX_DURATION
    ensures DurationOf(round, fused, t.(rate := faster), size) <= DurationOf(round, fused, t, size)
  {
    var q, r := Seconds(round, Clamped(t, size), faster), Seconds(round, Clamped(t, size), t.rate);
    SecondsAntitone(round, Clamped(t, size), t.rate, faster);
    SumMonotone(round, fused, t, q, r);
    SumIgnoresRate(round, fused, t, faster, q);
    CutMonotone(Sum(round, fused, t, q), Sum(round, fused, t, r));
  }

  lemma SumIgnoresRate(round: real -> real, fused: bool, t: Transfer, rate: int, q: real)
    requires IsRounding(round) && Valid(t) && Valid(t.(rate := rate)) && q >= 0.0
    ensures Sum(round, fused, t.(rate := rate), q) == Sum(round, fused, t, q)
  {}

  // ---------------------------------------------------------------- accuracy

  /** grace + bytes/rate, exactly, in nanoseconds. */
  function Exact(t: Transfer, bytes: int): real
    requires t.rate > 0
  {
    t.grace as real + bytes as real / t.rate as real * 1000000000.0
  }

  lemma ErrorsCompose(x: real, u: real, v: real)
    requires x >= 0.0 && 0.0 <= u <= 0.01 && 0.0 <= v <= 0.01
    ensures x * (1.0 + u) * (1.0 + v) <= x * (1.0 + (u + 1.01 * v))
    ensures x * (1.0 - (u + 1.01 * v)) <= x * (1.0 - u) * (1.0 - v)
  {
    var uv := u * v;
    assert 0.0 <= uv <= 0.01 * v;
    assert (1.0 + u) * (1.0 + v) == 1.0 + u + v + uv;
    assert (1.0 - u) * (1.0 - v) == 1.0 - u - v + uv;
    ProductMonotone((1.0 + u) * (1.0 + v), 1.0 + (u + 1.01 * v), x);
    ProductMonotone(1.0 - (u + 1.01 * v), (1.0 - u) * (1.0 - v), x);
  }

  /** Rounding a value already within u adds a little more than one EPSILON. */
  lemma RoundedWithin(round: real -> real, x: real, exact: real, u: real)
    requires IsRounding(round) && exact >= 0.0 && 0.0 <= u <= 0.01 && Within(x, exact, u)
    ensures x >= 0.0 && Within(round(x), exact, u + 1.01 * EPSILON)
  {
    ProductMonotone(0.0, exact, 1.0 - u);
    RoundingBounds(round, x);
    ProductMonotone(x, exact * (1.0 + u), 1.0 + EPSILON);
    ProductMonotone(exact * (1.0 - u), x, 1.0 - EPSILON);
    ErrorsCompose(exact, u, EPSILON);
  }

  lemma QuotientWithin(a: real, b: real, x: real, y: real)
    requires a >= 0.0 && b > 0.0 && Within(x, a, EPSILON) && Within(y, b, EPSILON)
    ensures y > 0.0 && Within(x / y, a / b, 3.0 * EPSILON)
  {
    var r, q := a / b, x / y;
    assert b * (1.0 - EPSILON) > 0.0;
    QuotientNonNegative(a, b);
    assert r * b == a && q * y == x;
    QuotientBelow(r, b, q, y);
    QuotientAbove(r, b, q, y);
  }

  lemma QuotientBelow(r: real, b: real, q: real, y: real)
    requires r >= 0.0 && b > 0.0 && y > 0.0 && b * (1.0 - EPSILON) <= y && q * y <= r * b * (1.0 + EPSILON)
    ensures q <= r * (1.0 + 3.0 * EPSILON)
  {
    var top := r * (1.0 + 3.0 * EPSILON);
    ProductMonotone(b * (1.0 - EPSILON), y, top);
    assert b * (1.0 - EPSILON) * top == r * b * ((1.0 - EPSILON) * (1.0 + 3.0 * EPSILON));
    assert (1.0 - EPSILON) * (1.0 + 3.0 * EPSILON) >= 1.0 + EPSILON;
    ProductMonotone(1.0 + EPSILON, (1.0 - EPSILON) * (1.0 + 3.0 * EPSILON), r * b);
    assert q * y <= top * y;
    CancelFactor(q, top, y);
  }

  lemma QuotientAbove(r: real, b: real, q: real, y: real)
    requires r >= 0.0 && b > 0.0 && y > 0.0 && y <= b * (1.0 + EPSILON) && r * b * (1.0 - EPSILON) <= q * y
    ensures r * (1.0 - 3.0 * EPSILON) <= q
  {
    var low := r * (1.0 - 3.0 * EPSILON);
    assert low >= 0.0;
    ProductMonotone(y, b * (1.0 + EPSILON), low);
    assert b * (1.0 + EPSILON) * low == r * b * ((1.0 + EPSILON) * (1.0 - 3.0 * EPSILON));
    assert (1.0 + EPSILON) * (1.0 - 3.0 * EPSILON) <= 1.0 - EPSILON;
    ProductMonotone((1.0 + EPSILON) * (1.0 - 3.0 * EPSILON), 1.0 - EPSILON, r * b);
    assert low * y <= q * y;
    CancelFactor(low, q, y);
  }

  lemma CancelFactor(a: real, b: real, c: real)
    requires c > 0.0 && a * c <= b * c
    ensures a <= b
  {
    if a > b {
      StrictProduct(a - b, c);
    }
  }

  lemma StrictProduct(a: real, b: real)
    requires a > 0.0 && b > 0.0
    ensures a * b > 0.0
  {}

  lemma SecondsWithin(round: real -> real, size: int, rate: int)
    requires IsRounding(round) && size >= 0 && rate > 0
    ensures Within(Seconds(round, size, rate), size as real / rate as real, 4.01 * EPSILON)
  {
    var a, b := size as real, rate as real;
    QuotientWithin(a, b, round(a), round(b));
    QuotientNonNegative(a, b);
    RoundedWithin(round, round(a) / round(b), a / b, 3.0 * EPSILON);
  }

  lemma Scaled(x: real, exact: real, u: real)
    requires Within(x, exact, u)
    ensures Within(x * SECOND, exact * SECOND, u)
  {
    assert exact * SECOND * (1.0 - u) == exact * (1.0 - u) * SECOND;
    assert exact * SECOND * (1.0 + u) == exact * (1.0 + u) * SECOND;
  }

  lemma Added(x: real, a: real, y: real, b: real, u: real)
    requires Within(x, a, u) && Within(y, b, u)
    ensures Within(x + y, a + b, u)
  {
    assert (a + b) * (1.0 - u) == a * (1.0 - u) + b * (1.0 - u);
    assert (a + b) * (1.0 + u) == a * (1.0 + u) + b * (1.0 + u);
  }

  lemma Looser(x: real, exact: real, u: real, v: real)
    requires exact >= 0.0 && u <= v && Within(x, exact, u)
    ensures Within(x, exact, v)
  {
    ProductMonotone(1.0 + u, 1.0 + v, exact);
    ProductMonotone(1.0 - v, 1.0 - u, exact);
  }

  lemma ProductWithin(round: real -> real, fused: bool, q: real, exact: real) returns (product: real)
    requires IsRounding(round) && exact >= 0.0 && q >= 0.0 && Within(q, exact, 4.01 * EPSILON)
    ensures product == (if fused then q * SECOND else round(q * SECOND))
    ensures product >= 0.0 && Within(product, exact * SECOND, 5.02 * EPSILON)
  {
    Scaled(q, exact, 4.01 * EPSILON);
    RoundedWithin(round, q * SECOND, exact * SECOND, 4.01 * EPSILON);
    RoundingBounds(round, q * SECOND);
    product := if fused then q * SECOND else round(q * SECOND);
    if fused {
      Looser(product, exact * SECOND, 4.01 * EPSILON, 5.02 * EPSILON);
    }
  }

  lemma SumWithin(round: real -> real, fused: bool, t: Transfer, q: real, exact: real)
    requires IsRounding(round) && Valid(t) && exact >= 0.0 && q >= 0.0 && Within(q, exact, 4.01 * EPSILON)
    ensures Within(Sum(round, fused, t, q), t.grace as real + exact * SECOND, 8.0 * EPSILON)
  {
    var product := ProductWithin(round, fused, q, exact);
    SumIs(round, fused, t, q, product);
    SecondNonNegative(exact);
    SumRounded(round, t.grace as real, product, exact * SECOND);
  }

  lemma SecondNonNegative(x: real)
    requires x >= 0.0
    ensures x * SECOND >= 0.0
  {}

  /** A rounded term and one within 5.02 EPSILON, added and rounded. */
  lemma SumRounded(round: real -> real, g: real, product: real, m: real)
    requires IsRounding(round) && g >= 0.0 && m >= 0.0 && Within(product, m, 5.02 * EPSILON)
    ensures Within(round(round(g) + product), g + m, 8.0 * EPSILON)
  {
    RoundingBounds(round, g);
    Looser(round(g), g, EPSILON, 5.02 * EPSILON);
    Added(round(g), g, product, m, 5.02 * EPSILON);
    RoundedWithin(round, round(g) + product, g + m, 5.02 * EPSILON);
    Looser(round(round(g) + product), g + m, 5.02 * EPSILON + 1.01 * EPSILON, 8.0 * EPSILON);
  }

  lemma NanosecondsWithin(round: real -> real, fused: bool, t: Transfer, size: int)
    requires IsRounding(round) && Valid(t)
    ensures Within(Nanoseconds(round, fused, t, size), Exact(t, Clamped(t, size)), 8.0 * EPSILON)
  {
    var s := Clamped(t, size);
    QuotientNonNegative(s as real, t.rate as real);
    SecondsWithin(round, s, t.rate);
    SumWithin(round, fused, t, Seconds(round, s, t.rate), s as real / t.rate as real);
  }

  lemma CutAccurate(d: real, low: real, high: real)
    requires d >= 0.0 && low <= d <= high
    ensures if d < TWO_63 then low - 1.0 < Cut(d) as real <= high else high >= TWO_63
  {}

  /** The computed duration is within a relative 2^-50 and one nanosecond of grace + size/rate, unless
      it saturates; and it saturates only where the exact value is that close to 2^63 or beyond. */
  lemma DurationAccurate(round: real -> real, fused: bool, t: Transfer, size: int)
    requires IsRounding(round) && Valid(t)
    ensures var d, exact := DurationOf(round, fused, t, size), Exact(t, if 0 <= size <= t.limit then size else t.limit);
            if Nanoseconds(round, fused, t, size) < 9223372036854775808.0 then
              exact * (1.0 - 8.0 * EPSILON) - 1.0 < d as real <= exact * (1.0 + 8.0 * EPSILON)
            else d == 0x7FFF_FFFF_FFFF_FFFF && exact * (1.0 + 8.0 * EPSILON) >= 9223372036854775808.0
    ensures 8.0 * EPSILON == 1.0 / 1125899906842624.0
  {
    var exact := Exact(t, Clamped(t, size));
    NanosecondsWithin(round, fused, t, size);
    CutAccurate(Nanoseconds(round, fused, t, size), exact * (1.0 - 8.0 * EPSILON), exact * (1.0 + 8.0 * EPSILON));
  }

  /** A negative size counts as the limit, and a larger one is capped at it. */
  lemma OutsideCountsAsLimit(round: real -> real, fused: bool, t: Transfer, size: int)
    requires IsRounding(round) && Valid(t) && (size < 0 || size > t.limit)
    ensures DurationOf(round, fused, t, size) == DurationOf(round, fused, t, t.limit)
  {}

  // ---------------------------------------------------------------- deadlines

  /** A deadline on the connection: a time, or the zero time for none. */
  datatype Deadline = NoDeadline | At(time: int)

  /** What http.ResponseController answers to setting a deadline. */
  datatype Support = Supported | NotSupported | Failing

  class Connection {
    const support: Support
    var readDeadline: Option<Deadline>
    var writeDeadline: Option<Deadline>

    constructor (s: Support)
      ensures support == s && readDeadline == None && writeDeadline == None
    {
      support, readDeadline, writeDeadline := s, None, None;
    }

    method SetReadDeadline(d: Deadline) returns (failed: bool)
      modifies this`readDeadline
      ensures failed == support.Failing?
      ensures readDeadline == if support.Supported? then Some(d) else old(readDeadline)
    {
      if support.Supported? {
        readDeadline := Some(d);
      }
      failed := support.Failing?;
    }

    method SetWriteDeadline(d: Deadline) returns (failed: bool)
      modifies this`writeDeadline
      ensures failed == support.Failing?
      ensures writeDeadline == if support.Supported? then Some(d) else old(writeDeadline)
    {
      if support.Supported? {
        writeDeadline := Some(d);
      }
      failed := support.Failing?;
    }
  }

  function DeadlineAfter(now: int, d: int): Deadline {
    if d == MAX_DURATION then NoDeadline else At(now + d)
  }

  /** WidenUpload: a writer without deadlines is no error. Where both are set, the write deadline is the
      read deadline and a grace, or neither limits, exactly when the duration saturates. */
  method WidenUpload(round: real -> real, fused: bool, t: Transfer, w: Connection, length: int, now: int)
    returns (failed: bool)
    requires IsRounding(round) && Valid(t)
    modifies w
    ensures failed <==> w.support.Failing? && (t.read || t.write)
    ensures var d := DurationOf(round, fused, t, length);
            var unlimited := d == 0x7FFF_FFFF_FFFF_FFFF;
            && (w.support.Supported? && t.read ==>
                  w.readDeadline == Some(if unlimited then NoDeadline else At(now + d)))
            && (w.support.Supported? && t.write ==>
                  w.writeDeadline == Some(if unlimited then NoDeadline else At(now + d + t.grace)))
    ensures !w.support.Supported? || !t.read ==> w.readDeadline == old(w.readDeadline)
    ensures !w.support.Supported? || !t.write ==> w.writeDeadline == old(w.writeDeadline)
  {
    var d := Duration(round, fused, t, length);
    var read := DeadlineAfter(now, d.value);
    if t.read {
      failed := w.SetReadDeadline(read);
      if failed {
        return;
      }
    }
    if t.write {
      var write := read;
      if read.At? {
        write := At(read.time + t.grace);
      }
      failed := w.SetWriteDeadline(write);
      if failed {
        return;
      }
    }
    return false;
  }

  method WidenDownload(round: real -> real, fused: bool, t: Transfer, w: Connection, size: int, now: int)
    returns (failed: bool)
    requires IsRounding(round) && Valid(t)
    modifies w`writeDeadline
    ensures failed <==> w.support.Failing? && t.write
    ensures var d := DurationOf(round, fused, t, size);
            w.writeDeadline ==
              if w.support.Supported? && t.write
                then Some(if d == 0x7FFF_FFFF_FFFF_FFFF then NoDeadline else At(now + d))
              else old(w.writeDeadline)
  {
    var d := Duration(round, fused, t, size);
    if !t.write {
      return false;
    }
    failed := w.SetWriteDeadline(DeadlineAfter(now, d.value));
  }
}
