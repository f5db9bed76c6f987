/**
  Sizes that keep an aspect ratio exactly: of all sizes with that ratio and divisible sides, the one whose
  short side is closest to the target among those within the caps.
*/
module AspectSize {
  import opened Prelude
  import opened Decimals
  import opened SourceText

  // ------------------------------------------------------------------ division

  function Gcd(a: nat, b: nat): (g: nat)
    requires a > 0
    ensures g > 0
    decreases b
  {
    if b == 0 then a else Gcd(b, a % b)
  }

  /** The greatest common divisor divides both numbers and is a combination of them. */
  lemma {:induction false} GcdMeaning(a: nat, b: nat) returns (x: int, y: int)
    requires a > 0
    ensures a % Gcd(a, b) == 0 && b % Gcd(a, b) == 0
    ensures a * x + b * y == Gcd(a, b)
    decreases b
  {
    if b == 0 {
      x, y := 1, 0;
    } else {
      var q, r := a / b, a % b;
      var u, v := GcdMeaning(b, r);
      Division(a, b);
      x, y := v, u - q * v;
      BezoutStep(a, b, q, r, u, v, Gcd(b, r));
      DivisibleSum(b, r, q, Gcd(b, r));
    }
  }

  lemma Division(a: int, b: int)
    requires b > 0
    ensures a == b * (a / b) + a % b
  {
  }

  lemma BezoutStep(a: int, b: int, q: int, r: int, u: int, v: int, g: int)
    requires a == b * q + r && b * u + r * v == g
    ensures a * v + b * (u - q * v) == g
  {
    DistributeSum(b * q, r, v);
    Distribute(b, u, q * v);
    Reassociate(b, q, v);
  }

  lemma Reassociate(a: int, b: int, c: int)
    ensures (a * b) * c == a * (b * c)
  {
  }

  /** Multiplying by a positive number keeps the order. */
  lemma Scale(a: int, b: int, k: int)
    requires a <= b && k > 0
    ensures a * k <= b * k
  {
  }

  lemma Distribute(a: int, b: int, c: int)
    ensures a * (b - c) == a * b - a * c
  {
  }

  lemma DistributeSum(a: int, b: int, c: int)
    ensures (a + b) * c == a * c + b * c
  {
  }

  lemma MultipleOf(n: int, k: int)
    requires k > 0 && n % k == 0
    ensures n == (n / k) * k
  {
  }

  lemma ModOfMultiple(m: int, k: int)
    requires k > 0
    ensures (m * k) % k == 0 && (m * k) / k == m
  {
    var q, r := (m * k) / k, (m * k) % k;
    assert m * k == q * k + r;
    DistributeSum(m, -q, k);
    assert (m - q) * k == r;
    if m - q >= 1 {
      Scale(1, m - q, k);
    } else if m - q <= -1 {
      Scale(m - q, -1, k);
    }
  }

  lemma DivisibleSum(b: int, r: int, q: int, g: int)
    requires g > 0 && b % g == 0 && r % g == 0
    ensures (b * q + r) % g == 0
  {
    MultipleOf(b, g);
    MultipleOf(r, g);
    var m := (b / g) * q + r / g;
    assert b * q + r == m * g by {
      assert ((b / g) * g) * q == ((b / g) * q) * g;
      DistributeSum((b / g) * q, r / g, g);
    }
    ModOfMultiple(m, g);
  }

  // --------------------------------------------------------------------- ratio

  datatype Ratio = Ratio(w: int, h: int)

  const DEFAULT_RATIO := Ratio(9, 16)

  function StripLeft(s: string): string {
    if s != "" && IsSpace(s[0]) then StripLeft(s[1..]) else s
  }

  function StripRight(s: string): string {
    if s != "" && IsSpace(s[|s| - 1]) then StripRight(s[..|s| - 1]) else s
  }

  function Strip(s: string): string {
    StripRight(StripLeft(s))
  }

  /** Digits with single underscores between them, the underscores taken out. */
  function GroupedDigits(s: string): (r: Option<string>)
    ensures r.Some? ==> IsDigits(r.value)
  {
    if s == "" || !('0' <= s[0] <= '9') then None
    else if |s| == 1 then Some(s)
    else
      var rest := GroupedDigits(if s[1] == '_' then s[2..] else s[1..]);
      if rest.None? then None else Some([s[0]] + rest.value)
  }

  /** `int(text)`: surrounding whitespace, an optional sign, grouped digits. */
  function ParseInt(text: string): Option<int> {
    var s := Strip(text);
    var signed := s != "" && (s[0] == '-' || s[0] == '+');
    var digits := GroupedDigits(if signed then s[1..] else s);
    if digits.None? then None
    else Some(if signed && s[0] == '-' then 0 - DecimalValue(digits.value) else DecimalValue(digits.value) as int)
  }

  predicate IsColon(c: char) {
    c == ':' || c == '\U{FF1A}'
  }

  /** The pieces between colons. */
  function SplitColons(s: string): (r: seq<string>)
    ensures r != []
  {
    if s == "" then [""]
    else
      var rest := SplitColons(s[1..]);
      if IsColon(s[0]) then [""] + rest else [[s[0]] + rest[0]] + rest[1..]
  }

  function Reduce(a: nat, b: nat): Ratio
    requires a > 0 && b > 0
  {
    var g := Gcd(a, b);
    Ratio(a / g, b / g)
  }

  /** The ratio in lowest terms; anything unreadable or not positive is the default. */
  function ParseAspectRatio(text: string): Ratio {
    var parts := SplitColons(Strip(text));
    if |parts| != 2 then DEFAULT_RATIO
    else
      var a, b := ParseInt(parts[0]), ParseInt(parts[1]);
      if a.None? || b.None? || a.value <= 0 || b.value <= 0 then DEFAULT_RATIO
      else Reduce(a.value, b.value)
  }

  /** Positive terms, some combination of which is 1. */
  ghost predicate InLowestTerms(r: Ratio) {
    r.w > 0 && r.h > 0 && exists x: int, y: int :: Combines(r, x, y)
  }

  ghost predicate Combines(r: Ratio, x: int, y: int) {
    r.w * x + r.h * y == 1
  }

  lemma ReduceMeaning(a: nat, b: nat)
    requires a > 0 && b > 0
    ensures InLowestTerms(Reduce(a, b)) && Reduce(a, b).w * b == Reduce(a, b).h * a
  {
    var g := Gcd(a, b);
    var x, y := GcdMeaning(a, b);
    var p, q := a / g, b / g;
    MultipleOf(a, g);
    MultipleOf(b, g);
    assert (p * x + q * y) * g == g by {
      DistributeSum(p * x, q * y, g);
      assert (p * x) * g == (p * g) * x && (q * y) * g == (q * g) * y;
    }
    CancelFactor(p * x + q * y, g);
    assert Combines(Ratio(p, q), x, y);
    assert p > 0 && q > 0;
    assert p * (q * g) == q * (p * g);
  }

  lemma CancelFactor(m: int, g: int)
    requires g > 0 && m * g == g
    ensures m == 1
  {
    if m >= 2 {
      Scale(2, m, g);
    } else if m <= 0 {
      Scale(m, 0, g);
    }
  }

  lemma ParsedRatioIsReduced(text: string)
    ensures InLowestTerms(ParseAspectRatio(text))
  {
    var parts := SplitColons(Strip(text));
    assert Combines(DEFAULT_RATIO, 9, -5);
    if |parts| == 2 {
      var a, b := ParseInt(parts[0]), ParseInt(parts[1]);
      if a.Some? && b.Some? && a.value > 0 && b.value > 0 {
        ReduceMeaning(a.value, b.value);
      }
    }
  }

  lemma {:induction false} PlainDigits(d: string)
    requires IsDigits(d)
    ensures GroupedDigits(d) == Some(d)
  {
    if |d| > 1 {
      PlainDigits(d[1..]);
      assert [d[0]] + d[1..] == d;
    }
  }

  lemma PlainNumber(n: nat)
    ensures ParseInt(DecimalString(n)) == Some(n) && Strip(DecimalString(n)) == DecimalString(n)
  {
    hide DecimalString, GroupedDigits, DecimalValue;
    PlainDigits(DecimalString(n));
    DecimalRoundTrip(n);
  }

  lemma {:induction false} SplitAtColon(x: string, y: string)
    requires (forall i :: 0 <= i < |x| ==> !IsColon(x[i])) && (forall i :: 0 <= i < |y| ==> !IsColon(y[i]))
    ensures SplitColons(y) == [y]
    ensures SplitColons(x + ":" + y) == [x, y]
    decreases |x|, |y|
  {
    if y != "" {
      SplitAtColon("", y[1..]);
      assert [y[0]] + y[1..] == y;
    }
    var s := x + ":" + y;
    if x == "" {
      assert s[1..] == y;
    } else {
      SplitAtColon(x[1..], y);
      assert s[1..] == x[1..] + ":" + y;
      assert [x[0]] + x[1..] == x;
    }
  }

  /** A plain ratio text is read as the ratio it names. */
  lemma PlainRatioIsRead(a: nat, b: nat)
    requires a > 0 && b > 0
    ensures ParseAspectRatio(DecimalString(a) + ":" + DecimalString(b)) == Reduce(a, b)
  {
    hide DecimalString, DecimalValue, SplitColons, GroupedDigits, ParseInt, Gcd;
    var x, y := DecimalString(a), DecimalString(b);
    var s := x + ":" + y;
    PlainNumber(a);
    PlainNumber(b);
    SplitAtColon(x, y);
    assert s[0] == x[0] && s[|s| - 1] == y[|y| - 1];
    assert Strip(s) == s;
  }

  // ------------------------------------------------------------------ rounding

  /** `round(n / d)`: to nearest, halves to even. */
  function RoundHalfEven(n: int, d: int): (r: int)
    requires d > 0
    ensures -d <= 2 * (n - r * d) <= d
  {
    var f := n / d;
    if 2 * (n % d) < d then f
    else if 2 * (n % d) > d then
      DistributeSum(f, 1, d);
      f + 1
    else if f % 2 == 0 then f
    else
      DistributeSum(f, 1, d);
      f + 1
  }

  function Square(n: int): int {
    n * n
  }

  /** The largest number whose square does not exceed `n`. */
  function ISqrt(n: nat): (r: nat)
    ensures Square(r) <= n < Square(r + 1)
  {
    if n == 0 then 0
    else
      var r := ISqrt(n - 1);
      assert Square(r + 2) > Square(r + 1) by { SquareStep(r + 1); }
      if Square(r + 1) <= n then r + 1 else r
  }

  lemma SquareStep(n: int)
    requires n >= 0
    ensures Square(n + 1) == Square(n) + 2 * n + 1
  {
  }

  lemma SquareMonotone(a: int, b: int)
    requires 0 <= a <= b
    ensures Square(a) <= Square(b)
  {
    assert a * a <= a * b <= b * b;
  }

  // ---------------------------------------------------------------------- size

  function Max(a: int, b: int): int {
    if a >= b then a else b
  }

  datatype Size = Size(w: int, h: int)

  datatype SizeError = NegativePixelBudget

  /** The multiple of the smallest legal size that is asked for before any cap. */
  function WantedMultiple(ratio: Ratio, shortEdge: int, roundTo: int): int
    requires ratio.w > 0 && ratio.h > 0 && roundTo >= 1
  {
    Max(1, RoundHalfEven(shortEdge, roundTo * Min(ratio.w, ratio.h)))
  }

  function LongCap(ratio: Ratio, roundTo: int, maxLongEdge: int): int
    requires ratio.w > 0 && ratio.h > 0 && roundTo >= 1
  {
    maxLongEdge / (roundTo * Max(ratio.w, ratio.h))
  }

  function Area(ratio: Ratio, roundTo: int): (a: int)
    requires ratio.w > 0 && ratio.h > 0 && roundTo >= 1
    ensures a > 0
  {
    ratio.w * ratio.h * (roundTo * roundTo)
  }

  function PixelCap(ratio: Ratio, roundTo: int, maxTotalPixels: nat): int
    requires ratio.w > 0 && ratio.h > 0 && roundTo >= 1
  {
    ISqrt(maxTotalPixels / Area(ratio, roundTo))
  }

  function Multiple(ratio: Ratio, shortEdge: int, roundTo: int, maxLongEdge: Option<int>,
      maxTotalPixels: Option<nat>): int
    requires ratio.w > 0 && ratio.h > 0 && roundTo >= 1
  {
    var wanted := WantedMultiple(ratio, shortEdge, roundTo);
    var byLong := if maxLongEdge.Some? then Min(wanted, Max(1, LongCap(ratio, roundTo, maxLongEdge.value))) else wanted;
    if maxTotalPixels.Some? then Min(byLong, Max(1, PixelCap(ratio, roundTo, maxTotalPixels.value))) else byLong
  }

  function Scaled(ratio: Ratio, roundTo: int, t: int): Size {
    Size(ratio.w * roundTo * t, ratio.h * roundTo * t)
  }

  /** The size for a ratio text and a short side; a negative pixel budget has no integer square root. */
  function SizeFor(
      text: string, shortEdge: int, roundTo: int, maxLongEdge: Option<int>, maxTotalPixels: Option<int>):
      Result<Size, SizeError>
    requires roundTo >= 1
  {
    var ratio := ParseAspectRatio(text);
    ParsedRatioIsReduced(text);
    if maxTotalPixels.Some? && maxTotalPixels.value < 0 then Err(NegativePixelBudget)
    else
      var budget: Option<nat> := if maxTotalPixels.Some? then Some(maxTotalPixels.value) else None;
      Ok(Scaled(ratio, roundTo, Multiple(ratio, shortEdge, roundTo, maxLongEdge, budget)))
  }

  // ------------------------------------------------------------------ optimality

  /** A size of exactly this ratio with both sides divisible. */
  predicate Legal(ratio: Ratio, roundTo: int, s: Size)
    requires roundTo >= 1
  {
    s.w > 0 && s.h > 0 && s.w * ratio.h == s.h * ratio.w && s.w % roundTo == 0 && s.h % roundTo == 0
  }

  predicate Within(maxLongEdge: Option<int>, maxTotalPixels: Option<int>, s: Size) {
    && (maxLongEdge.Some? ==> Max(s.w, s.h) <= maxLongEdge.value)
    && (maxTotalPixels.Some? ==> s.w * s.h <= maxTotalPixels.value)
  }

  function Distance(s: Size, shortEdge: int): int {
    var d := Min(s.w, s.h) - shortEdge;
    if d >= 0 then d else -d
  }

  /** The legal sizes are exactly the multiples of the smallest one: nothing falls between. */
  lemma LegalSizesAreMultiples(ratio: Ratio, roundTo: int, s: Size) returns (t: int)
    requires InLowestTerms(ratio) && roundTo >= 1 && Legal(ratio, roundTo, s)
    ensures t >= 1 && s == Scaled(ratio, roundTo, t)
  {
    var x, y :| Combines(ratio, x, y);
    var p, q := s.w / roundTo, s.h / roundTo;
    MultipleOf(s.w, roundTo);
    MultipleOf(s.h, roundTo);
    assert p * ratio.h == q * ratio.w by {
      assert (p * ratio.h) * roundTo == (q * ratio.w) * roundTo by {
        assert (p * ratio.h) * roundTo == (p * roundTo) * ratio.h;
        assert (q * ratio.w) * roundTo == (q * roundTo) * ratio.w;
      }
      SameFactor(p * ratio.h, q * ratio.w, roundTo);
    }
    t := p * x + q * y;
    CommonMultiple(p, q, ratio.w, ratio.h, x, y);
    CommonMultiple(q, p, ratio.h, ratio.w, y, x);
    PositiveFactor(ratio.w, t, roundTo, s.w);
    Rescale(ratio.w, t, roundTo);
    Rescale(ratio.h, t, roundTo);
  }

  lemma Rescale(a: int, t: int, k: int)
    ensures (a * t) * k == a * k * t
  {
  }

  /** `p : q` is `w : h` in lowest terms, so `p` is the same multiple of `w` that `q` is of `h`. */
  lemma CommonMultiple(p: int, q: int, w: int, h: int, x: int, y: int)
    requires p * h == q * w && w * x + h * y == 1
    ensures p == w * (p * x + q * y)
  {
    Expand(w, p * x, q * y);
    Expand(p, w * x, h * y);
    Swap(w, p, x);
    Reassociate(p, h, y);
    Swap(w, q, y);
    Reassociate(q, w, y);
  }

  lemma Swap(a: int, b: int, c: int)
    ensures a * (b * c) == b * (a * c)
  {
    Reassociate(a, b, c);
    Reassociate(b, a, c);
  }

  lemma Expand(a: int, b: int, c: int)
    ensures a * (b + c) == a * b + a * c
  {
  }

  lemma SameFactor(a: int, b: int, k: int)
    requires k > 0 && a * k == b * k
    ensures a == b
  {
    if a > b {
      Distribute(k, a, b);
      Scale(1, a - b, k);
    } else if b > a {
      Distribute(k, b, a);
      Scale(1, b - a, k);
    }
  }

  lemma PositiveFactor(a: int, t: int, k: int, n: int)
    requires a > 0 && k > 0 && n > 0 && n == (a * t) * k
    ensures t >= 1
  {
    if t <= 0 {
      Scale(t, 0, a);
      Scale(a * t, 0, k);
    }
  }

  lemma ScaledIsLegal(ratio: Ratio, roundTo: int, t: int)
    requires ratio.w > 0 && ratio.h > 0 && roundTo >= 1 && t >= 1
    ensures Legal(ratio, roundTo, Scaled(ratio, roundTo, t))
  {
    var s := Scaled(ratio, roundTo, t);
    assert s.w == (ratio.w * t) * roundTo && s.h == (ratio.h * t) * roundTo;
    ModOfMultiple(ratio.w * t, roundTo);
    ModOfMultiple(ratio.h * t, roundTo);
    assert ratio.w * t > 0 && ratio.h * t > 0;
    assert s.w * ratio.h == s.h * ratio.w;
  }

  lemma ScaledSides(ratio: Ratio, roundTo: int, t: int)
    requires ratio.w > 0 && ratio.h > 0 && roundTo >= 1 && t >= 1
    ensures var s := Scaled(ratio, roundTo, t);
            && Min(s.w, s.h) == t * (roundTo * Min(ratio.w, ratio.h))
            && Max(s.w, s.h) == roundTo * Max(ratio.w, ratio.h) * t
            && s.w * s.h == Area(ratio, roundTo) * Square(t)
  {
    Side(ratio.w, roundTo, t);
    Side(ratio.h, roundTo, t);
    Scale(Min(ratio.w, ratio.h), Max(ratio.w, ratio.h), roundTo);
    Scale(Min(ratio.w, ratio.h) * roundTo, Max(ratio.w, ratio.h) * roundTo, t);
    Areas(ratio.w, ratio.h, roundTo, t);
  }

  lemma Side(a: int, k: int, t: int)
    ensures a * k * t == t * (k * a) && k * a * t == a * k * t
  {
  }

  lemma Areas(a: int, b: int, k: int, t: int)
    ensures (a * k * t) * (b * k * t) == a * b * (k * k) * Square(t)
  {
    var m := k * t;
    Reassociate(a, k, t);
    Reassociate(b, k, t);
    assert (a * m) * (b * m) == (a * b) * (m * m) by {
      Reassociate(a, m, b * m);
      Swap(m, b, m);
      Reassociate(a, b, m * m);
    }
    assert m * m == (k * k) * (t * t) by {
      Reassociate(k, t, k * t);
      Swap(t, k, t);
      Reassociate(k, k, t * t);
    }
    Reassociate(a * b, k * k, t * t);
  }

  /** Within a cap means not above its quotient. */
  lemma AtMostQuotient(t: int, unit: int, cap: int)
    requires unit > 0
    ensures unit * t <= cap <==> t <= cap / unit
  {
    var q := cap / unit;
    assert cap == q * unit + cap % unit;
    if t <= q {
      assert unit * t <= unit * q;
    } else {
      assert unit * t >= unit * (q + 1) == unit * q + unit;
    }
  }

  lemma WithinMeansBelowCaps(ratio: Ratio, roundTo: int, maxLongEdge: Option<int>, maxTotalPixels: Option<nat>, t: int)
    requires ratio.w > 0 && ratio.h > 0 && roundTo >= 1 && t >= 1
    ensures Within(maxLongEdge, maxTotalPixels, Scaled(ratio, roundTo, t)) <==>
      && (maxLongEdge.Some? ==> t <= LongCap(ratio, roundTo, maxLongEdge.value))
      && (maxTotalPixels.Some? ==> t <= PixelCap(ratio, roundTo, maxTotalPixels.value))
  {
    ScaledSides(ratio, roundTo, t);
    if maxLongEdge.Some? {
      AtMostQuotient(t, roundTo * Max(ratio.w, ratio.h), maxLongEdge.value);
    }
    if maxTotalPixels.Some? {
      var area := Area(ratio, roundTo);
      AtMostQuotient(Square(t), area, maxTotalPixels.value);
      var root := PixelCap(ratio, roundTo, maxTotalPixels.value);
      if t <= root {
        SquareMonotone(t, root);
      } else {
        SquareMonotone(root + 1, t);
      }
    }
  }

  /** Among the multiples from 1 to a cap, the rounded one pushed into that range is closest. */
  lemma ClampedIsClosest(u: int, target: int, cap: int, t: int, other: int)
    requires u > 0 && 1 <= other <= cap
    requires t == Min(Max(1, RoundHalfEven(target, u)), cap)
    ensures Gap(u, t, target) <= Gap(u, other, target)
  {
    var r := RoundHalfEven(target, u);
    if other < t {
      Scale(other + 1, t, u);
      Scale(t, r, u);
      DistributeSum(other, 1, u);
    } else if other > t {
      Scale(t + 1, other, u);
      Scale(r, t, u);
      DistributeSum(t, 1, u);
    }
  }

  function Gap(u: int, t: int, target: int): int {
    if t * u >= target then t * u - target else target - t * u
  }

  /**
    The size is legal. If any legal size meets the caps, it meets them too and no legal size that does has a
    short side closer to the target; otherwise it is the smallest legal size.
  */
  lemma SizeIsOptimal(
      text: string, shortEdge: int, roundTo: int, maxLongEdge: Option<int>, maxTotalPixels: Option<int>)
    requires roundTo >= 1
    ensures SizeFor(text, shortEdge, roundTo, maxLongEdge, maxTotalPixels).Err? <==>
              maxTotalPixels.Some? && maxTotalPixels.value < 0
    ensures SizeFor(text, shortEdge, roundTo, maxLongEdge, maxTotalPixels).Ok? ==>
              var ratio := ParseAspectRatio(text);
              var s := SizeFor(text, shortEdge, roundTo, maxLongEdge, maxTotalPixels).value;
              && InLowestTerms(ratio) && Legal(ratio, roundTo, s)
              && (forall o :: Legal(ratio, roundTo, o) && Within(maxLongEdge, maxTotalPixels, o) ==>
                    Within(maxLongEdge, maxTotalPixels, s) && Distance(s, shortEdge) <= Distance(o, shortEdge))
              && (!(exists o :: Legal(ratio, roundTo, o) && Within(maxLongEdge, maxTotalPixels, o)) ==>
                    s == Size(ratio.w * roundTo, ratio.h * roundTo))
  {
    if SizeFor(text, shortEdge, roundTo, maxLongEdge, maxTotalPixels).Ok? {
      ParsedRatioIsReduced(text);
      var budget: Option<nat> := if maxTotalPixels.Some? then Some(maxTotalPixels.value) else None;
      MultipleIsOptimal(ParseAspectRatio(text), shortEdge, roundTo, maxLongEdge, budget);
    }
  }

  lemma MultipleIsOptimal(
      ratio: Ratio, shortEdge: int, roundTo: int, maxLongEdge: Option<int>, maxTotalPixels: Option<nat>)
    requires InLowestTerms(ratio) && roundTo >= 1
    ensures var s := Scaled(ratio, roundTo, Multiple(ratio, shortEdge, roundTo, maxLongEdge, maxTotalPixels));
            && Legal(ratio, roundTo, s)
            && (forall o :: Legal(ratio, roundTo, o) && Within(maxLongEdge, maxTotalPixels, o) ==>
                  Within(maxLongEdge, maxTotalPixels, s) && Distance(s, shortEdge) <= Distance(o, shortEdge))
            && (!(exists o :: Legal(ratio, roundTo, o) && Within(maxLongEdge, maxTotalPixels, o)) ==>
                  s == Size(ratio.w * roundTo, ratio.h * roundTo))
  {
    hide Legal, Within, Distance, Scaled, LongCap, PixelCap, WantedMultiple;
    var t := Multiple(ratio, shortEdge, roundTo, maxLongEdge, maxTotalPixels);
    MultipleIsPositive(ratio, shortEdge, roundTo, maxLongEdge, maxTotalPixels);
    var s := Scaled(ratio, roundTo, t);
    ScaledIsLegal(ratio, roundTo, t);
    forall o | Legal(ratio, roundTo, o) && Within(maxLongEdge, maxTotalPixels, o)
      ensures Within(maxLongEdge, maxTotalPixels, s) && Distance(s, shortEdge) <= Distance(o, shortEdge)
    {
      var other := LegalSizesAreMultiples(ratio, roundTo, o);
      CloserThan(ratio, shortEdge, roundTo, maxLongEdge, maxTotalPixels, other);
    }
    if !(exists o :: Legal(ratio, roundTo, o) && Within(maxLongEdge, maxTotalPixels, o)) {
      ScaledIsLegal(ratio, roundTo, 1);
      assert !Within(maxLongEdge, maxTotalPixels, Scaled(ratio, roundTo, 1));
      WithinMeansBelowCaps(ratio, roundTo, maxLongEdge, maxTotalPixels, 1);
      assert t == 1;
      ScaledOnce(ratio, roundTo);
    }
  }

  lemma MultipleIsPositive(
      ratio: Ratio, shortEdge: int, roundTo: int, maxLongEdge: Option<int>, maxTotalPixels: Option<nat>)
    requires ratio.w > 0 && ratio.h > 0 && roundTo >= 1
    ensures Multiple(ratio, shortEdge, roundTo, maxLongEdge, maxTotalPixels) >= 1
    ensures WantedMultiple(ratio, shortEdge, roundTo) >= 1
  {
  }

  lemma ScaledOnce(ratio: Ratio, roundTo: int)
    ensures Scaled(ratio, roundTo, 1) == Size(ratio.w * roundTo, ratio.h * roundTo)
  {
  }

  lemma CloserThan(
      ratio: Ratio, shortEdge: int, roundTo: int, maxLongEdge: Option<int>, maxTotalPixels: Option<nat>, other: int)
    requires ratio.w > 0 && ratio.h > 0 && roundTo >= 1 && other >= 1
    requires Within(maxLongEdge, maxTotalPixels, Scaled(ratio, roundTo, other))
    ensures var t := Multiple(ratio, shortEdge, roundTo, maxLongEdge, maxTotalPixels);
            var s := Scaled(ratio, roundTo, t);
            && Within(maxLongEdge, maxTotalPixels, s)
            && Distance(s, shortEdge) <= Distance(Scaled(ratio, roundTo, other), shortEdge)
  {
    hide Scaled, Within, LongCap, PixelCap, RoundHalfEven;
    var u := roundTo * Min(ratio.w, ratio.h);
    var t := Multiple(ratio, shortEdge, roundTo, maxLongEdge, maxTotalPixels);
    MultipleIsPositive(ratio, shortEdge, roundTo, maxLongEdge, maxTotalPixels);
    WithinMeansBelowCaps(ratio, roundTo, maxLongEdge, maxTotalPixels, other);
    WithinMeansBelowCaps(ratio, roundTo, maxLongEdge, maxTotalPixels, t);
    ScaledSides(ratio, roundTo, t);
    ScaledSides(ratio, roundTo, other);
    var wanted := WantedMultiple(ratio, shortEdge, roundTo);
    var cap := CapOf(ratio, roundTo, maxLongEdge, maxTotalPixels, Max(wanted, other));
    assert other <= cap && t == Min(wanted, cap);
    assert u > 0;
    ClampedIsClosest(u, shortEdge, cap, t, other);
  }

  /** All caps in one. */
  function CapOf(ratio: Ratio, roundTo: int, maxLongEdge: Option<int>, maxTotalPixels: Option<nat>, top: int): int
    requires ratio.w > 0 && ratio.h > 0 && roundTo >= 1
  {
    var byLong := if maxLongEdge.Some? then Min(top, LongCap(ratio, roundTo, maxLongEdge.value)) else top;
    if maxTotalPixels.Some? then Min(byLong, PixelCap(ratio, roundTo, maxTotalPixels.value)) else byLong
  }
}
