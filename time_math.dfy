/**
 * The integer arithmetic of script/pytagtime.py: the hour buckets of the
 * hour-of-the-day and hour-of-the-week charts, and the day offset that
 * `reldate` subtracts from today's date.
 */
module TimeMath {
  import opened Wrappers
  import opened LogText

  // ---------------------------------------------------------------------------
  // Hour buckets
  // ---------------------------------------------------------------------------

  /** Python 2 `a / b` on integers: the floor of the quotient (never truncation). */
  function FloorDiv(a: int, b: int): (q: int)
    requires b != 0
    ensures b > 0 ==> q * b <= a < q * b + b
    ensures b < 0 ==> q * b >= a > q * b + b
  {
    if b > 0 then a / b else (-a) / (-b)
  }

  /** `resolution * (hour / resolution)`: the first hour of the block of `resolution` hours holding `hour`. */
  function HourBucket(resolution: int, hour: int): int
    requires resolution != 0
  {
    resolution * FloorDiv(hour, resolution)
  }

  /**
   * For a positive resolution the bucket is a multiple of the resolution, at
   * most the hour and more than `resolution` below it; for an hour of the day
   * it is itself an hour of the day.
   */
  lemma BucketBounds(resolution: int, hour: int)
    requires resolution > 0
    ensures var b := HourBucket(resolution, hour);
      && b % resolution == 0
      && hour - resolution < b <= hour
      && (0 <= hour < 24 ==> 0 <= b < 24)
  {
    var q := FloorDiv(hour, resolution);
    assert HourBucket(resolution, hour) == q * resolution;
    DivOfMultiple(q, resolution);
    if 0 <= hour {
      NonNegativeQuotient(q, resolution, hour);
    }
  }

  lemma NonNegativeQuotient(q: int, r: int, h: int)
    requires r > 0 && 0 <= h < q * r + r
    ensures q >= 0
  {
    if q < 0 {
      MulAtLeast(-q, r);
    }
  }

  /** A multiple of a positive `r` divides back exactly and leaves no remainder. */
  lemma DivOfMultiple(q: int, r: int)
    requires r > 0
    ensures (q * r) / r == q && (q * r) % r == 0
  {
    var d := (q * r) / r;
    var m := (q * r) % r;
    assert (q - d) * r == m;
    if q - d >= 1 {
      MulAtLeast(q - d, r);
    } else if q - d <= -1 {
      MulAtLeast(d - q, r);
    }
  }

  lemma MulAtLeast(k: int, r: int)
    requires k >= 1 && r > 0
    ensures k * r >= r && -k * r <= -r
  {
  }

  /** For a negative resolution (which the command line accepts) the bucket lies at or above the hour. */
  lemma BucketBoundsNegative(resolution: int, hour: int)
    requires resolution < 0
    ensures var b := HourBucket(resolution, hour); hour <= b < hour - resolution
  {
  }

  /** Bucketing a bucket start changes nothing: every bucket start is its own bucket. */
  lemma BucketIdempotent(resolution: int, hour: int)
    requires resolution > 0
    ensures HourBucket(resolution, HourBucket(resolution, hour)) == HourBucket(resolution, hour)
  {
    var q := FloorDiv(hour, resolution);
    DivOfMultiple(q, resolution);
    assert resolution * q == q * resolution;
  }

  /**
   * Two hours share a bucket exactly when the second lies in the block of
   * `resolution` hours that starts at the first one's bucket.
   */
  lemma SameBucket(resolution: int, h1: int, h2: int)
    requires resolution > 0
    ensures var b := HourBucket(resolution, h1);
      HourBucket(resolution, h1) == HourBucket(resolution, h2) <==> b <= h2 < b + resolution
  {
    var q1, q2 := FloorDiv(h1, resolution), FloorDiv(h2, resolution);
    assert HourBucket(resolution, h1) == q1 * resolution;
    assert HourBucket(resolution, h2) == q2 * resolution;
    if q1 * resolution <= h2 < q1 * resolution + resolution {
      QuotientUnique(q1, q2, resolution, h2);
    }
  }

  /** At most one multiple of a positive `r` lies in the `r` hours up to `h`. */
  lemma QuotientUnique(p: int, q: int, r: int, h: int)
    requires r > 0
    requires p * r <= h < p * r + r && q * r <= h < q * r + r
    ensures p == q
  {
    if p < q {
      MulAtLeast(q - p, r);
    } else if q < p {
      MulAtLeast(p - q, r);
    }
  }

  // ---------------------------------------------------------------------------
  // `reldate`
  // ---------------------------------------------------------------------------

  /** The length of the run of ASCII digits `\d` at the start of `s`. */
  function LeadingDigits(s: string): (k: nat)
    ensures k <= |s| && AllDigits(s[..k])
    ensures k < |s| ==> !IsDigit(s[k])
  {
    if s == [] || !IsDigit(s[0]) then 0
    else
      var k := 1 + LeadingDigits(s[1..]);
      assert s[..k] == [s[0]] + s[1..][..k - 1];
      k
  }

  /** The days one unit letter of `reldate` stands for. */
  function UnitDays(u: char): nat {
    match u
    case 'D' => 1
    case 'W' => 7
    case 'M' => 28
    case _ => 0
  }

  /**
   * The number of days `reldate(s)` goes back from today: `^(\d+)([DWM])`
   * must match at the start of `s` (anything after it is ignored); `nD` is `n`
   * days, `nW` is `n` weeks and `nM` is `4 * n` weeks.  No match is `None`
   * (the source then fails on `m.group`).
   */
  function RelDays(s: string): (r: Option<nat>)
    ensures r.Some? <==> (var k := LeadingDigits(s); 0 < k < |s| && s[k] in "DWM")
    ensures r.Some? ==> var k := LeadingDigits(s); r.value == DigitsValue(s[..k]) * UnitDays(s[k])
  {
    var k := LeadingDigits(s);
    if k == 0 || k == |s| then None
    else
      var n := DigitsValue(s[..k]);
      match s[k]
      case 'D' => Some(n)
      case 'W' => Some(7 * n)
      case 'M' => Some(28 * n)
      case _ => None
  }

  /** Writing a count and a unit letter, followed by anything, reads back as that many units. */
  lemma RelDaysRoundTrip(n: nat, u: char, rest: string)
    requires u in "DWM"
    ensures RelDays(Decimal(n) + [u] + rest) == Some(n * UnitDays(u))
  {
    var d := Decimal(n);
    var s := d + [u] + rest;
    LeadingDigitsOf(d, [u] + rest);
    assert s == d + ([u] + rest);
    assert s[..|d|] == d;
    DigitsValueDecimal(n);
  }

  /** The digit run of a digit string followed by a non-digit is that digit string. */
  lemma {:induction false} LeadingDigitsOf(d: string, t: string)
    requires AllDigits(d) && t != [] && !IsDigit(t[0])
    ensures LeadingDigits(d + t) == |d|
  {
    if d != [] {
      assert (d + t)[1..] == d[1..] + t;
      LeadingDigitsOf(d[1..], t);
    } else {
      assert d + t == t;
    }
  }
}
