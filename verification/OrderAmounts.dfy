/** Exact order amounts: the price as a fraction in lowest terms, half-even rounding to significant
    digits, and the largest order at exactly that price. */
module OrderAmounts {
  import opened Options

  const U256_MAX: nat := 0xffff_ffff_ffff_ffff_ffff_ffff_ffff_ffff_ffff_ffff_ffff_ffff_ffff_ffff_ffff_ffff

  /** The largest number of a 256-bit word. */
  lemma WordIs256Bits()
    ensures U256_MAX + 1 == 0x1_0000_0000_0000_0000 * 0x1_0000_0000_0000_0000 * 0x1_0000_0000_0000_0000 * 0x1_0000_0000_0000_0000
  {}

  function Sat(x: nat): nat {
    if x > U256_MAX then U256_MAX else x
  }

  // ----- greatest common divisor -----

  function Gcd(a: nat, b: nat): nat
    decreases b
  {
    if b == 0 then (if a == 0 then 1 else a) else Gcd(b, a % b)
  }

  method ComputeGcd(x: nat, y: nat) returns (g: nat)
    ensures g == Gcd(x, y)
  {
    var a, b := x, y;
    while b != 0
      invariant Gcd(a, b) == Gcd(x, y)
      decreases b
    {
      a, b := b, a % b;
    }
    g := if a == 0 then 1 else a;
  }

  lemma {:induction false} Bezout(a: nat, b: nat) returns (x: int, y: int)
    requires a > 0 || b > 0
    ensures a * x + b * y == Gcd(a, b) && Gcd(a, b) > 0
    decreases b
  {
    if b == 0 {
      x, y := 1, 0;
    } else {
      var x', y' := Bezout(b, a % b);
      x, y := y', x' - (a / b) * y';
      DivMod(a, b);
      BezoutStep(a, b, a / b, a % b, x', y');
    }
  }

  lemma BezoutStep(a: int, b: int, q: int, r: int, x: int, y: int)
    requires a == q * b + r
    ensures a * y + b * (x - q * y) == b * x + r * y
  {
    calc {
      a * y + b * (x - q * y);
      (q * b) * y + r * y + b * x - b * (q * y);
      { assert (q * b) * y == b * (q * y); }
      b * x + r * y;
    }
  }

  predicate Divides(d: nat, n: nat) {
    d > 0 && n % d == 0
  }

  lemma MulLe(a: int, b: int, c: int)
    requires a <= b && 0 <= c
    ensures a * c <= b * c
  {}

  lemma MulLt(a: int, b: int, c: int)
    requires a < b && 0 < c
    ensures a * c < b * c
  {}

  lemma MulAdd(a: int, b: int, c: int)
    ensures (a + b) * c == a * c + b * c && (a - b) * c == a * c - b * c
  {}

  lemma Swap(a: int, b: int, c: int)
    ensures (a * b) * c == (a * c) * b == a * (b * c)
  {}

  lemma DivMod(v: nat, d: nat)
    requires d > 0
    ensures v == (v / d) * d + v % d && 0 <= v % d < d && v / d >= 0
  {}

  /** A multiple of d strictly between -d and d is zero. */
  lemma SmallMultiple(m: int, d: nat)
    requires d > 0 && -1 * d < m * d < d
    ensures m == 0
  {
    if m >= 1 {
      MulLe(1, m, d);
    } else if m <= -1 {
      MulLe(m, -1, d);
    }
  }

  lemma Cancel(a: int, b: int, n: nat)
    requires n > 0 && a * n == b * n
    ensures a == b
  {
    MulAdd(a, b, n);
    SmallMultiple(a - b, n);
  }

  lemma DivideUnique(n: nat, d: nat, q: int, r: int)
    requires d > 0 && n == q * d + r && 0 <= r < d
    ensures n / d == q && n % d == r
  {
    DivMod(n, d);
    MulAdd(q, n / d, d);
    SmallMultiple(q - n / d, d);
  }

  lemma MultipleDivides(d: nat, k: nat)
    requires d > 0
    ensures Divides(d, k * d) && (k * d) / d == k
  {
    DivideUnique(k * d, d, k, 0);
  }

  lemma SumDivides(d: nat, a: nat, b: nat, q: nat)
    requires Divides(d, a) && Divides(d, b)
    ensures Divides(d, q * b + a)
  {
    DivMod(a, d);
    DivMod(b, d);
    var a', b' := a / d, b / d;
    Swap(q, b', d);
    MulAdd(q * b', a', d);
    MultipleDivides(d, q * b' + a');
  }

  lemma {:induction false} GcdDivides(a: nat, b: nat)
    requires a > 0 || b > 0
    ensures Divides(Gcd(a, b), a) && Divides(Gcd(a, b), b)
    decreases b
  {
    if b != 0 {
      GcdDivides(b, a % b);
      DivMod(a, b);
      SumDivides(Gcd(a, b), a % b, b, a / b);
    }
  }

  /** Numbers with an integer combination of 1 are coprime. */
  lemma CombinationOfOne(a: nat, b: nat, x: int, y: int)
    requires b > 0 && a * x + b * y == 1
    ensures Gcd(a, b) == 1
  {
    var d := Gcd(a, b);
    GcdDivides(a, b);
    DivMod(a, d);
    DivMod(b, d);
    var a', b' := a / d, b / d;
    Swap(a', x, d);
    Swap(b', y, d);
    MulAdd(a' * x, b' * y, d);
    if d > 1 {
      SmallMultiple(a' * x + b' * y, d);
    }
  }

  lemma DividedCombination(a: nat, b: nat, g: nat, x: int, y: int)
    requires g > 0 && (a * g) * x + (b * g) * y == g
    ensures a * x + b * y == 1
  {
    Swap(a, g, x);
    Swap(b, g, y);
    Swap(a, x, g);
    Swap(b, y, g);
    MulAdd(a * x, b * y, g);
    Cancel(a * x + b * y, 1, g);
  }

  /** Dividing by the gcd leaves a fraction in lowest terms. */
  lemma LowestTerms(a: nat, b: nat)
    requires b > 0
    ensures var g := Gcd(a, b);
            g > 0 && a == (a / g) * g && b == (b / g) * g && Gcd(a / g, b / g) == 1
  {
    var g := Gcd(a, b);
    var x, y := Bezout(a, b);
    GcdDivides(a, b);
    DivMod(a, g);
    DivMod(b, g);
    hide Gcd;
    DividedCombination(a / g, b / g, g, x, y);
    CombinationOfOne(a / g, b / g, x, y);
  }

  /** In lowest terms n/d, a pair m : t at that price has m a multiple of n. */
  lemma PairIsMultiple(n: nat, d: nat, m: nat, t: nat) returns (k: nat)
    requires n > 0 && d > 0 && Gcd(n, d) == 1 && m * d == t * n
    ensures m == k * n && t == k * d
  {
    var x, y := Bezout(n, d);
    hide Gcd;
    var j := MultipleByCombination(n, d, m, t, x, y);
    if j < 0 {
      MulLe(j, -1, n);
    }
    k := j;
    Swap(k, n, d);
    Cancel(t, k * d, n);
  }

  lemma MultipleByCombination(n: nat, d: nat, m: nat, t: nat, x: int, y: int) returns (j: int)
    requires n * x + d * y == 1 && m * d == t * n
    ensures m == j * n
  {
    j := m * x + t * y;
    MulAdd(m * x, t * y, n);
    Swap(m, x, n);
    Swap(t, y, n);
    assert m * (x * n) + (t * n) * y == m * (n * x) + (m * d) * y;
    Swap(m, d, y);
    MulAdd(n * x, d * y, m);
  }

  // ----- the price -----

  type Digit = d: nat | d < 10

  datatype Sign = Unsigned | Plus | Minus

  /** A decimal: the digits before the point and, when there is a point, those after it. */
  datatype PriceText = PriceText(sign: Sign, whole: seq<Digit>, frac: Option<seq<Digit>>)

  datatype PriceError = InvalidPrice | OutOfRange | TooPrecise

  datatype Result<+T, +E> = Ok(value: T) | Err(error: E)

  function Pow10(k: nat): (p: nat)
    ensures p > 0
  {
    if k == 0 then 1 else 10 * Pow10(k - 1)
  }

  function ToNat(digits: seq<Digit>): nat
    decreases |digits|
  {
    if digits == [] then 0 else 10 * ToNat(digits[..|digits| - 1]) + digits[|digits| - 1]
  }

  function FracDigits(price: PriceText): seq<Digit> {
    if price.frac.Some? then price.frac.value else []
  }

  /** The price is Units / 10^scale. */
  function Scale(price: PriceText): nat {
    |FracDigits(price)|
  }

  function Units(price: PriceText): nat {
    ToNat(price.whole) * Pow10(Scale(price)) + ToNat(FracDigits(price))
  }

  predicate HasDigits(price: PriceText) {
    price.whole != [] || FracDigits(price) != []
  }

  /** From 0.001 to 0.999. */
  predicate InRange(price: PriceText) {
    !price.sign.Minus? && Pow10(Scale(price)) <= 1000 * Units(price) <= 999 * Pow10(Scale(price))
  }

  predicate PriceAccepted(price: PriceText) {
    price.whole != [] && InRange(price) && Scale(price) <= 6
  }

  /** What digits before the point are worth: the first one the most. */
  ghost function WholeValue(digits: seq<Digit>): real
    decreases |digits|
  {
    if digits == [] then 0.0 else digits[0] as real * Pow10(|digits| - 1) as real + WholeValue(digits[1..])
  }

  /** What digits after the point are worth: a tenth each time. */
  ghost function FracValue(digits: seq<Digit>): real
    decreases |digits|
  {
    if digits == [] then 0.0 else (digits[0] as real + FracValue(digits[1..])) / 10.0
  }

  /** The number that the digits of a decimal text stand for, without its sign. */
  ghost function Value(price: PriceText): real {
    WholeValue(price.whole) + FracValue(FracDigits(price))
  }

  lemma {:induction false} ToNatFirst(digits: seq<Digit>)
    requires digits != []
    ensures ToNat(digits) == digits[0] * Pow10(|digits| - 1) + ToNat(digits[1..])
    decreases |digits|
  {
    if |digits| > 1 {
      var front := digits[..|digits| - 1];
      ToNatFirst(front);
      assert front[1..] == digits[1..][..|digits| - 2];
      Times10(digits[0], |digits| - 2);
    }
  }

  lemma Times10(d: nat, k: nat)
    ensures d * Pow10(k + 1) == 10 * (d * Pow10(k))
  {}

  lemma {:induction false} WholeIsToNat(digits: seq<Digit>)
    ensures WholeValue(digits) == ToNat(digits) as real
    decreases |digits|
  {
    if digits == [] {
    } else {
      hide WholeValue, ToNat;
      WholeIsToNat(digits[1..]);
      WholeUnfold(digits);
    }
  }

  lemma WholeUnfold(digits: seq<Digit>)
    requires digits != [] && WholeValue(digits[1..]) == ToNat(digits[1..]) as real
    ensures WholeValue(digits) == ToNat(digits) as real
  {
    hide *;
    ToNatFirst(digits);
    WholeFirst(digits);
    WholeStep(digits[0], Pow10(|digits| - 1), ToNat(digits[1..]), WholeValue(digits[1..]), WholeValue(digits));
  }

  lemma WholeFirst(digits: seq<Digit>)
    requires digits != []
    ensures WholeValue(digits) == digits[0] as real * Pow10(|digits| - 1) as real + WholeValue(digits[1..])
  {
    hide Pow10;
  }

  lemma WholeStep(d: nat, pow: nat, rest: nat, restValue: real, value: real)
    requires restValue == rest as real && value == d as real * pow as real + restValue
    ensures value == (d * pow + rest) as real
  {
    RealProduct(d, pow);
  }

  lemma RealProduct(a: int, b: int)
    ensures (a * b) as real == a as real * b as real
  {}

  lemma {:induction false} FracIsToNat(digits: seq<Digit>)
    ensures FracValue(digits) * Pow10(|digits|) as real == ToNat(digits) as real
    decreases |digits|
  {
    if digits == [] {
    } else {
      hide FracValue, ToNat, Pow10;
      FracIsToNat(digits[1..]);
      FracUnfold(digits);
    }
  }

  lemma FracUnfold(digits: seq<Digit>)
    requires digits != [] && FracValue(digits[1..]) * Pow10(|digits| - 1) as real == ToNat(digits[1..]) as real
    ensures FracValue(digits) * Pow10(|digits|) as real == ToNat(digits) as real
  {
    hide *;
    ToNatFirst(digits);
    FracFirst(digits);
    FracStep(digits[0], Pow10(|digits| - 1), ToNat(digits[1..]), FracValue(digits[1..]), FracValue(digits));
  }

  lemma FracFirst(digits: seq<Digit>)
    requires digits != []
    ensures FracValue(digits) == (digits[0] as real + FracValue(digits[1..])) / 10.0
    ensures Pow10(|digits|) == 10 * Pow10(|digits| - 1)
  {}

  lemma FracStep(d: nat, pow: nat, rest: nat, restValue: real, value: real)
    requires restValue * pow as real == rest as real && value == (d as real + restValue) / 10.0
    ensures value * (10 * pow) as real == (d * pow + rest) as real
  {
    RealProduct(d, pow);
    Distribute(d as real, restValue, pow as real);
    Tenth(d as real + restValue, pow as real);
  }

  lemma Tenth(a: real, b: real)
    ensures (a / 10.0) * (10.0 * b) == a * b
  {}

  /** The integers that the program computes with stand for the value of the text. */
  lemma UnitsAreValue(price: PriceText)
    ensures Units(price) as real == Value(price) * Pow10(Scale(price)) as real
    ensures 0.0 <= Value(price)
  {
    WholeIsToNat(price.whole);
    FracIsToNat(FracDigits(price));
    hide ToNat, Pow10, WholeValue, FracValue;
    UnitsStep(ToNat(price.whole), ToNat(FracDigits(price)), Pow10(Scale(price)), WholeValue(price.whole), FracValue(FracDigits(price)));
  }

  lemma UnitsStep(whole: nat, frac: nat, pow: nat, w: real, f: real)
    requires pow > 0 && w == whole as real && f * pow as real == frac as real
    ensures (whole * pow + frac) as real == (w + f) * pow as real && f >= 0.0
  {
    RealProduct(whole, pow);
    Positive(f, pow as real, frac as real);
    Distribute(w, f, pow as real);
  }

  lemma Distribute(a: real, b: real, c: real)
    ensures (a + b) * c == a * c + b * c
  {}

  lemma Positive(a: real, b: real, c: real)
    requires b > 0.0 && c >= 0.0 && a * b == c
    ensures a >= 0.0
  {
    if a < 0.0 { ScaleLt(a, 0.0, b); }
  }

  lemma Scaled(v: real, pow: real, units: real)
    requires pow > 0.0 && units == v * pow
    ensures pow <= 1000.0 * units <==> 0.001 <= v
    ensures 1000.0 * units <= 999.0 * pow <==> v <= 0.999
  {
    var low, high := 0.001 * pow, 0.999 * pow;
    ScaleIff(0.001, v, pow, low, units);
    ScaleIff(v, 0.999, pow, units, high);
  }

  lemma ScaleIff(a: real, b: real, c: real, ac: real, bc: real)
    requires c > 0.0 && ac == a * c && bc == b * c
    ensures ac <= bc <==> a <= b
  {
    if a <= b { ScaleLe(a, b, c); } else { ScaleLt(b, a, c); }
  }

  lemma ScaleLe(a: real, b: real, c: real)
    requires a <= b && c > 0.0
    ensures a * c <= b * c
  {}

  lemma ScaleLt(a: real, b: real, c: real)
    requires a < b && c > 0.0
    ensures a * c < b * c
  {}

  /** The range test is on the value: 0.001 to 0.999, and no minus sign. */
  lemma InRangeByValue(price: PriceText)
    ensures InRange(price) <==> !price.sign.Minus? && 0.001 <= Value(price) <= 0.999
  {
    hide *;
    UnitsAreValue(price);
    InRangeIs(price);
    RangeOfValue(Units(price), Pow10(Scale(price)), Value(price));
  }

  lemma InRangeIs(price: PriceText)
    ensures InRange(price) <==> !price.sign.Minus? && Pow10(Scale(price)) <= 1000 * Units(price) <= 999 * Pow10(Scale(price))
  {
    hide Pow10, Scale, Units;
  }

  lemma RangeOfValue(units: nat, pow: nat, value: real)
    requires pow > 0 && units as real == value * pow as real
    ensures pow <= 1000 * units <= 999 * pow <==> 0.001 <= value <= 0.999
  {
    Scaled(value, pow as real, units as real);
  }

  lemma FractionOfValue(num: nat, den: nat, units: nat, pow: nat, value: real)
    requires num * pow == units * den && pow > 0 && units as real == value * pow as real
    ensures num as real == value * den as real
  {
    RealProduct(num, pow);
    RealProduct(units, den);
    var p := pow as real;
    assert num as real * p == (value * den as real) * p;
    CancelReal(num as real, value * den as real, p);
  }

  lemma CancelReal(a: real, b: real, c: real)
    requires c > 0.0 && a * c == b * c
    ensures a == b
  {
    if a < b { ScaleLt(a, b, c); } else if b < a { ScaleLt(b, a, c); }
  }

  /** Accepts a price of 0.001 to 0.999 with digits before the point and at most six after it, and returns it
      as a fraction in lowest terms. */
  method PriceToFraction(price: PriceText) returns (r: Result<(nat, nat), PriceError>)
    ensures r.Ok? <==> PriceAccepted(price)
    ensures r.Ok? <==> price.whole != [] && |FracDigits(price)| <= 6 && !price.sign.Minus? && 0.001 <= Value(price) <= 0.999
    ensures r.Ok? ==> r.value.0 as real == Value(price) * r.value.1 as real
    ensures r.Ok? ==> && Gcd(r.value.0, r.value.1) == 1
                      && 0 < r.value.0 < r.value.1
                      && r.value.0 * Pow10(Scale(price)) == Units(price) * r.value.1
    ensures r == Err(OutOfRange) <==> HasDigits(price) && !InRange(price)
    ensures r == Err(TooPrecise) <==> HasDigits(price) && InRange(price) && Scale(price) > 6
  {
    hide Gcd, Value, Pow10, Units, InRange;
    InRangeByValue(price);
    if price.whole == [] && FracDigits(price) == [] { return Err(InvalidPrice); }
    var inRange := TestRange(price);
    if !inRange { return Err(OutOfRange); }
    if Scale(price) > 6 { return Err(TooPrecise); }
    if price.whole == [] { return Err(InvalidPrice); }
    UnitsAreValue(price);
    UnitsBelow(price);
    var num, den := Reduce(Units(price), Pow10(Scale(price)), Value(price));
    return Ok((num, den));
  }

  method TestRange(price: PriceText) returns (inRange: bool)
    ensures inRange <==> InRange(price)
  {
    var pow, units := Pow10(Scale(price)), Units(price);
    return !(price.sign.Minus? || 1000 * units < pow || 1000 * units > 999 * pow);
  }

  lemma UnitsBelow(price: PriceText)
    requires InRange(price)
    ensures 0 < Units(price) < Pow10(Scale(price))
  {
    hide Units, Pow10;
  }

  /** Divides both by their greatest common divisor. */
  method Reduce(units: nat, pow: nat, ghost value: real) returns (num: nat, den: nat)
    requires 0 < units < pow && units as real == value * pow as real
    ensures Gcd(num, den) == 1 && 0 < num < den && num * pow == units * den
    ensures num as real == value * den as real
  {
    hide Gcd;
    var g := ComputeGcd(units, pow);
    LowestTerms(units, pow);
    num, den := units / g, pow / g;
    FractionFacts(units, pow, g, num, den);
    FractionOfValue(num, den, units, pow, value);
  }

  lemma FractionFacts(units: nat, pow: nat, g: nat, num: nat, den: nat)
    requires g > 0 && units == num * g && pow == den * g && 0 < units < pow
    ensures 0 < num < den && num * pow == units * den
  {
    Swap(num, den, g);
    if num >= den {
      MulLe(den, num, g);
    }
  }

  // ----- rounding to significant digits -----

  function Digits(v: nat): nat {
    if v < 10 then 1 else 1 + Digits(v / 10)
  }

  /** The multiple count of d nearest to v, an even one on a tie. */
  function HalfEven(v: nat, d: nat): nat
    requires d > 0
  {
    var q, r := v / d, v % d;
    if 2 * r > d || (2 * r == d && q % 2 == 1) then q + 1 else q
  }

  function Unit(v: nat, n: nat): (d: nat)
    ensures d > 0
  {
    if v == 0 || Digits(v) <= n then 1 else Pow10(Digits(v) - n)
  }

  /** The rounding on unbounded integers. */
  function RoundSig(v: nat, n: nat): nat {
    HalfEven(v, Unit(v, n)) * Unit(v, n)
  }

  lemma HalfEvenByOne(v: nat)
    ensures HalfEven(v, 1) == v
  {}

  lemma {:induction false} PowIncreases(a: nat, b: nat)
    requires a <= b
    ensures Pow10(a) <= Pow10(b)
    decreases b
  {
    if a < b {
      PowIncreases(a, b - 1);
    }
  }

  lemma {:induction false} PowAdd(a: nat, b: nat)
    ensures Pow10(a + b) == Pow10(a) * Pow10(b)
    decreases b
  {
    if b > 0 {
      PowAdd(a, b - 1);
      assert Pow10(a) * (10 * Pow10(b - 1)) == 10 * (Pow10(a) * Pow10(b - 1));
    }
  }

  lemma {:induction false} DigitsSpec(v: nat)
    requires v > 0
    ensures Pow10(Digits(v) - 1) <= v < Pow10(Digits(v))
    decreases v
  {
    if v >= 10 {
      DigitsSpec(v / 10);
    }
  }

  lemma {:induction false} DigitsUnique(v: nat, k: nat)
    requires Pow10(k) <= v < Pow10(k + 1)
    ensures Digits(v) == k + 1
  {
    DigitsSpec(v);
    if Digits(v) < k + 1 {
      PowIncreases(Digits(v), k);
    } else if Digits(v) > k + 1 {
      PowIncreases(k + 1, Digits(v) - 1);
    }
  }

  /** Nearest multiple, ties to even, and the only one. */
  lemma HalfEvenIsNearest(v: nat, d: int, k: nat)
    requires d > 0
    ensures var r := HalfEven(v, d);
            && -d <= 2 * (r * d - v) <= d
            && (2 * (r * d - v) == d || 2 * (r * d - v) == -d ==> r % 2 == 0)
            && (-d < 2 * (k * d - v) < d || ((2 * (k * d - v) == d || 2 * (k * d - v) == -d) && k % 2 == 0) ==> k == r)
  {
    DivMod(v, d);
    NearestOf(v, d, v / d, v % d, HalfEven(v, d), k);
  }

  lemma NearestOf(v: nat, d: int, q: int, m: int, r: int, k: nat)
    requires d > 0 && v == q * d + m && 0 <= m < d
    requires r == if 2 * m > d || (2 * m == d && q % 2 == 1) then q + 1 else q
    ensures -d <= 2 * (r * d - v) <= d
    ensures 2 * (r * d - v) == d || 2 * (r * d - v) == -d ==> r % 2 == 0
    ensures -d < 2 * (k * d - v) < d || ((2 * (k * d - v) == d || 2 * (k * d - v) == -d) && k % 2 == 0) ==> k == r
  {
    MulAdd(q, 1, d);
    MulAdd(q, 2, d);
    if k >= q + 2 {
      MulLe(q + 2, k, d);
    } else if k <= q - 1 {
      MulLe(k, q - 1, d);
    }
  }

  lemma HalfEvenMonotone(v: nat, w: nat, d: nat)
    requires d > 0 && v <= w
    ensures HalfEven(v, d) <= HalfEven(w, d)
  {
    DivMod(v, d);
    DivMod(w, d);
    QuotientMonotone(v / d, v % d, w / d, w % d, d);
  }

  lemma QuotientMonotone(q: int, m: int, q': int, m': int, d: int)
    requires 0 <= m < d && 0 <= m' < d && q * d + m <= q' * d + m'
    ensures q < q' || (q == q' && m <= m')
  {
    if q > q' {
      MulLe(q' + 1, q, d);
      MulAdd(q', 1, d);
    }
  }

  lemma HalfEvenBounds(v: nat, d: nat, lo: nat, hi: nat)
    requires d > 0 && lo * d <= v <= hi * d
    ensures lo <= HalfEven(v, d) <= hi
  {
    HalfEvenMonotone(lo * d, v, d);
    HalfEvenMonotone(v, hi * d, d);
    HalfEvenExact(lo, d);
    HalfEvenExact(hi, d);
  }

  lemma HalfEvenExact(k: nat, d: nat)
    requires d > 0
    ensures HalfEven(k * d, d) == k
  {
    MultipleDivides(d, k);
  }

  /** Between two powers of ten the rounding stays there, and its unit counts n digits (or n + 1 on a carry). */
  lemma RoundSigRange(v: nat, n: nat)
    requires v > 0 && n >= 1 && Digits(v) > n
    ensures var r, p := HalfEven(v, Unit(v, n)), Digits(v) - n;
            && Unit(v, n) == Pow10(p)
            && Pow10(n - 1) <= r <= Pow10(n)
            && RoundSig(v, n) == r * Pow10(p)
            && Pow10(Digits(v) - 1) <= RoundSig(v, n) <= Pow10(Digits(v))
            && Pow10(n - 1) * Unit(v, n) <= v
  {
    var p := Digits(v) - n;
    DigitsSpec(v);
    PowAdd(n - 1, p);
    PowAdd(n, p);
    hide Pow10, HalfEven, Digits;
    HalfEvenBounds(v, Pow10(p), Pow10(n - 1), Pow10(n));
    var r := HalfEven(v, Pow10(p));
    MulLe(Pow10(n - 1), r, Pow10(p));
    MulLe(r, Pow10(n), Pow10(p));
  }

  /** The result has at most n significant digits. */
  lemma AtMostNDigits(v: nat, n: nat) returns (p: nat)
    requires n >= 1
    ensures Divides(Pow10(p), RoundSig(v, n)) && RoundSig(v, n) / Pow10(p) < Pow10(n)
  {
    if v == 0 || Digits(v) <= n {
      p := 0;
      HalfEvenByOne(v);
      if v > 0 {
        DigitsSpec(v);
        PowIncreases(Digits(v), n);
      }
    } else {
      RoundSigRange(v, n);
      p := Digits(v) - n;
      hide Pow10, HalfEven, Digits, RoundSig;
      var r := HalfEven(v, Pow10(p));
      MultipleDivides(Pow10(p), r);
      if r == Pow10(n) {
        PowAdd(n - 1, p + 1);
        PowAdd(n, p);
        p := p + 1;
        MultipleDivides(Pow10(p), Pow10(n - 1));
      }
    }
  }

  /** A value that already has at most n digits, or is zero, is kept. */
  lemma FewDigitsKept(v: nat, n: nat)
    requires v == 0 || Digits(v) <= n
    ensures RoundSig(v, n) == v
  {
    HalfEvenByOne(v);
  }

  lemma RoundSigAtMost(v: nat, n: nat)
    requires v > 0 && n >= 1
    ensures RoundSig(v, n) <= Pow10(Digits(v))
  {
    if Digits(v) <= n {
      FewDigitsKept(v, n);
      DigitsSpec(v);
    } else {
      RoundSigRange(v, n);
    }
  }

  lemma RoundSigMonotone(v: nat, w: nat, n: nat)
    requires n >= 1 && v <= w
    ensures RoundSig(v, n) <= RoundSig(w, n)
  {
    hide Pow10, HalfEven, Digits;
    if v == 0 {
      FewDigitsKept(v, n);
    } else {
      DigitsMonotone(v, w);
      if Digits(w) <= n {
        FewDigitsKept(v, n);
        FewDigitsKept(w, n);
      } else if Digits(v) == Digits(w) {
        var d := Unit(w, n);
        HalfEvenMonotone(v, w, d);
        MulLe(HalfEven(v, d), HalfEven(w, d), d);
      } else {
        RoundSigAtMost(v, n);
        RoundSigRange(w, n);
        PowIncreases(Digits(v), Digits(w) - 1);
      }
    }
  }

  lemma {:induction false} DigitsAtMost(v: nat, k: nat)
    requires v < Pow10(k) && k > 0
    ensures Digits(v) <= k
    decreases v
  {
    if v >= 10 {
      DigitsAtMost(v / 10, k - 1);
    }
  }

  lemma DigitsMonotone(v: nat, w: nat)
    requires 0 < v <= w
    ensures Digits(v) <= Digits(w)
  {
    DigitsSpec(w);
    DigitsAtMost(v, Digits(w));
  }

  /** Also when the rounding carries into a new digit, rounding again changes nothing. */
  lemma RoundSigIdempotent(v: nat, n: nat)
    requires n >= 1
    ensures RoundSig(RoundSig(v, n), n) == RoundSig(v, n)
  {
    if v == 0 || Digits(v) <= n {
      FewDigitsKept(v, n);
    } else {
      RoundSigRange(v, n);
      var p, r := Digits(v) - n, HalfEven(v, Unit(v, n));
      hide RoundSig, HalfEven, Digits, Unit, Pow10;
      if r < Pow10(n) {
        RoundMultiple(r, p, n);
      } else {
        PowAdd(n, p);
        PowAdd(n - 1, p + 1);
        PowNext(n - 1);
        RoundMultiple(Pow10(n - 1), p + 1, n);
      }
    }
  }

  lemma PowNext(k: nat)
    ensures Pow10(k + 1) == 10 * Pow10(k)
  {}

  /** An n-digit number of units is its own rounding. */
  lemma RoundMultiple(r: nat, p: nat, n: nat)
    requires n >= 1 && Pow10(n - 1) <= r < Pow10(n)
    ensures RoundSig(r * Pow10(p), n) == r * Pow10(p)
  {
    var w := r * Pow10(p);
    PowAdd(n - 1, p);
    PowAdd(n, p);
    hide Pow10, Digits, HalfEven;
    MulLe(Pow10(n - 1), r, Pow10(p));
    MulLt(r, Pow10(n), Pow10(p));
    DigitsUnique(w, n - 1 + p);
    if p == 0 {
      FewDigitsKept(w, n);
    } else {
      HalfEvenExact(r, Pow10(p));
    }
  }

  /** The error is at most half a unit, a relative error of at most 10^(1-n) / 2: 0.05% for n = 4. */
  lemma RoundSigError(v: nat, n: nat)
    requires n >= 1
    ensures var e := RoundSig(v, n) - v;
            && -1 * Unit(v, n) <= 2 * e <= Unit(v, n)
            && -1 * v <= (2 * e) * Pow10(n - 1) <= v
  {
    hide RoundSig, HalfEven, Digits, Unit, Pow10;
    UnitError(v, n);
    if v == 0 || Digits(v) <= n {
      FewDigitsKept(v, n);
    } else {
      RoundSigRange(v, n);
      ScaledError(v, RoundSig(v, n) - v, Unit(v, n), Pow10(n - 1));
    }
  }

  /** Half-even rounding is off by at most half a unit. */
  lemma UnitError(v: nat, n: nat)
    requires n >= 1
    ensures var e := RoundSig(v, n) - v; -1 * Unit(v, n) <= 2 * e <= Unit(v, n)
  {
    hide HalfEven, Digits, Unit, Pow10;
    HalfEvenIsNearest(v, Unit(v, n), 0);
  }

  /** An error of half a unit, where k units fit the value, is a relative one of 1 / 2k. */
  lemma ScaledError(v: nat, e: int, u: int, k: int)
    requires -1 * u <= 2 * e <= u && 0 <= k && k * u <= v
    ensures -1 * v <= (2 * e) * k <= v
  {
    MulLe(2 * e, u, k);
    MulLe(-1 * u, 2 * e, k);
    Swap(-1, u, k);
  }

  /** Rounding is monotone for every pair of values exactly when at least one digit is kept. */
  lemma MonotoneIffADigitIsKept(n: nat)
    ensures n >= 1 <==> forall v: nat, w: nat :: v <= w ==> RoundSig(v, n) <= RoundSig(w, n)
  {
    if n >= 1 {
      forall v: nat, w: nat | v <= w ensures RoundSig(v, n) <= RoundSig(w, n) {
        RoundSigMonotone(v, w, n);
      }
    } else {
      assert Pow10(1) == 10 && Pow10(2) == 10 * Pow10(1);
      assert Digits(6) == 1 && RoundSig(6, 0) == 10;
      assert Digits(10) == 2 && RoundSig(10, 0) == 0;
    }
  }

  lemma PowSum(a: nat, b: nat, x: nat, y: nat)
    requires Pow10(a) == x && Pow10(b) == y
    ensures Pow10(a + b) == x * y
  {
    PowAdd(a, b);
  }

  lemma PowersFit()
    ensures Pow10(77) < U256_MAX && U256_MAX < Pow10(78)
  {
    assert Pow10(1) == 10;
    hide Pow10;
    PowSum(1, 1, 10, 10);
    PowSum(2, 2, 100, 100);
    PowSum(4, 4, 10_000, 10_000);
    PowSum(8, 8, 100_000_000, 100_000_000);
    var e16: nat := 10_000_000_000_000_000;
    PowSum(16, 16, e16, e16);
    PowSum(32, 32, e16 * e16, e16 * e16);
    PowSum(64, 8, e16 * e16 * (e16 * e16), 100_000_000);
    PowSum(72, 4, e16 * e16 * (e16 * e16) * 100_000_000, 10_000);
    PowSum(76, 1, e16 * e16 * (e16 * e16) * 100_000_000 * 10_000, 10);
    PowSum(77, 1, e16 * e16 * (e16 * e16) * 100_000_000 * 10_000 * 10, 10);
  }

  /** Below 10^77 nothing saturates. */
  lemma RoundingFits(v: nat, n: nat)
    requires v < Pow10(77)
    ensures RoundSig(v, n) <= Pow10(77) < U256_MAX
  {
    PowersFit();
    hide Pow10, HalfEven, Digits;
    if v == 0 || Digits(v) <= n {
      FewDigitsKept(v, n);
    } else {
      DigitsSpec(v);
      var p := Digits(v) - n;
      if Digits(v) > 77 {
        PowIncreases(77, Digits(v) - 1);
      }
      PowIncreases(Digits(v), 77);
      PowAdd(n, p);
      HalfEvenBounds(v, Pow10(p), 0, Pow10(n));
      MulLe(HalfEven(v, Pow10(p)), Pow10(n), Pow10(p));
    }
  }

  /** The rounding as coded, on 256-bit words with saturating products. */
  method RoundToSignificantDigits(value: nat, n: nat) returns (r: nat)
    requires value <= U256_MAX
    ensures n >= 1 || value < Pow10(77) ==> r == Sat(RoundSig(value, n))
  {
    hide HalfEven, RoundSig, Pow10, Digits;
    if value == 0 || Digits(value) <= n {
      FewDigitsKept(value, n);
      return value;
    }
    var power := Digits(value) - n;
    PowersFit();
    PowerBound(value, n);
    var divisor := 1;
    PowZero();
    for i := 0 to power
      invariant divisor == Sat(Pow10(i))
    {
      PowNext(i);
      divisor := Sat(divisor * 10);
    }
    if n >= 1 || value < Pow10(77) {
      RoundSigIs(value, n);
    }
    PowIncreases(1, power);
    PowNext(0);
    r := RoundQuotient(value, divisor);
  }

  method RoundQuotient(value: nat, divisor: nat) returns (r: nat)
    requires value <= U256_MAX && 1 < divisor <= U256_MAX
    ensures divisor < U256_MAX ==> r == Sat(HalfEven(value, divisor) * divisor)
  {
    QuotientBound(value, divisor);
    var rounded := TieToEven(value / divisor, value % divisor, divisor);
    MulLe(0, rounded, divisor);
    r := Sat(rounded * divisor);
  }

  method TieToEven(quotient: nat, remainder: nat, divisor: nat) returns (rounded: nat)
    requires quotient < U256_MAX
    ensures divisor < U256_MAX ==>
              rounded == if 2 * remainder > divisor || (2 * remainder == divisor && quotient % 2 == 1)
                         then quotient + 1 else quotient
  {
    var twice := Sat(remainder * 2);
    rounded := quotient;
    if twice > divisor {
      rounded := Sat(quotient + 1);
    } else if twice == divisor {
      if quotient % 2 == 1 {
        rounded := Sat(quotient + 1);
      }
    }
  }

  lemma PowZero()
    ensures Pow10(0) == 1
  {}

  lemma RoundSigIs(v: nat, n: nat)
    ensures RoundSig(v, n) == HalfEven(v, Unit(v, n)) * Unit(v, n)
  {}

  lemma QuotientBound(v: nat, d: nat)
    requires 1 < d && v <= U256_MAX
    ensures v / d < U256_MAX
  {
    DivMod(v, d);
    MulLe(2, d, v / d);
    Swap(1, d, v / d);
  }

  lemma PowerBound(value: nat, n: nat)
    requires 0 < value <= U256_MAX && Digits(value) > n
    requires Pow10(77) < U256_MAX < Pow10(78)
    ensures n >= 1 || value < Pow10(77) ==> 1 < Pow10(Digits(value) - n) < U256_MAX
  {
    DigitsSpec(value);
    PowNext(0);
    PowZero();
    hide Pow10, Digits;
    if Digits(value) > 78 {
      PowIncreases(78, Digits(value) - 1);
    }
    if n >= 1 || value < Pow10(77) {
      if Digits(value) - n > 77 {
        PowIncreases(77, Digits(value) - 1);
      }
      PowIncreases(Digits(value) - n, 77);
      PowIncreases(1, Digits(value) - n);
    }
  }

  // ----- the amounts -----

  datatype OrderSide = Buy | Sell

  /** The maker : taker pair k times the fraction, in the order of the side. */
  function Pair(num: nat, den: nat, k: nat, side: OrderSide): (nat, nat) {
    match side
    case Buy => (Sat(k * num), Sat(k * den))
    case Sell => (Sat(k * den), Sat(k * num))
  }

  function MakerUnit(num: nat, den: nat, side: OrderSide): nat {
    if side.Buy? then num else den
  }

  function Multiplier(maker: nat, unit: nat): nat
    requires unit > 0
  {
    if maker / unit == 0 then 1 else maker / unit
  }

  /** Quote over base at exactly units / 10^scale. */
  predicate ExactPrice(pair: (nat, nat), units: nat, pow: nat, side: OrderSide) {
    match side
    case Buy => pair.0 * pow == units * pair.1
    case Sell => pair.1 * pow == units * pair.0
  }

  method CalculateOrderAmounts(price: PriceText, maker: nat, side: OrderSide) returns (r: Result<(nat, nat), PriceError>, ghost num: nat, ghost den: nat, ghost rounded: nat)
    requires maker <= U256_MAX
    ensures r.Ok? <==> PriceAccepted(price)
    ensures r.Ok? ==> && Gcd(num, den) == 1 && 0 < num < den && num * Pow10(Scale(price)) == Units(price) * den
                      && rounded == Sat(RoundSig(maker, 4))
                      && r.value == Pair(num, den, Multiplier(rounded, MakerUnit(num, den, side)), side)
    ensures r == Err(OutOfRange) <==> HasDigits(price) && !InRange(price)
    ensures r == Err(TooPrecise) <==> HasDigits(price) && InRange(price) && Scale(price) > 6
  {
    num, den, rounded := 0, 1, 0;
    hide Gcd, Pow10, Units, Scale, RoundSig, PriceAccepted, InRange, HasDigits, Value;
    var fraction := PriceToFraction(price);
    if fraction.Err? { return Err(fraction.error), num, den, rounded; }
    var n, d := fraction.value.0, fraction.value.1;
    var maker4 := RoundToSignificantDigits(maker, 4);
    num, den, rounded := n, d, maker4;
    var pair := Recalculate(n, d, maker4, side);
    r := Ok(pair);
  }

  function AtLeastOne(x: nat): nat {
    if x == 0 then 1 else x
  }

  method Recalculate(n: nat, d: nat, maker4: nat, side: OrderSide) returns (pair: (nat, nat))
    requires 0 < n < d
    ensures pair == Pair(n, d, Multiplier(maker4, MakerUnit(n, d, side)), side)
  {
    var k := match side case Buy => maker4 / n case Sell => maker4 / d;
    if k == 0 {
      k := 1;
    }
    assert k == Multiplier(maker4, MakerUnit(n, d, side));
    hide Multiplier, MakerUnit;
    pair := CapPair(k, n, d, side);
  }

  method CapPair(k: nat, n: nat, d: nat, side: OrderSide) returns (pair: (nat, nat))
    requires 0 < k && 0 < n && 0 < d
    ensures pair == Pair(n, d, k, side)
  {
    SatPositive(k, n);
    SatPositive(k, d);
    hide AtLeastOne, Sat;
    pair := match side
      case Buy => (Sat(k * n), Sat(k * d))
      case Sell => (Sat(k * d), Sat(k * n));
    pair := (AtLeastOne(pair.0), AtLeastOne(pair.1));
  }

  lemma SatPositive(k: nat, n: nat)
    requires k > 0 && n > 0
    ensures k * n > 0 && AtLeastOne(Sat(k * n)) == Sat(k * n)
  {
    MulLe(1, k, n);
  }

  lemma ExactByFraction(m: nat, t: nat, num: nat, den: nat, units: nat, pow: nat)
    requires num > 0 && den > 0 && pow > 0 && units > 0 && num * pow == units * den
    ensures m * pow == units * t <==> m * den == t * num
  {
    Swap(m, pow, num);
    Swap(m, num, pow);
    Swap(m, units, den);
    Swap(m, den, units);
    assert (m * pow) * num == (m * den) * units;
    Swap(units, t, num);
    Swap(t, num, units);
    assert (units * t) * num == (t * num) * units;
    if m * pow == units * t {
      Cancel(m * den, t * num, units);
    }
    if m * den == t * num {
      Cancel(m * pow, units * t, num);
    }
  }

  /** Capping two multiples keeps their ratio exactly when the larger one is not cut. */
  lemma CapKeepsRatio(num: nat, den: nat, k: nat, cap: nat)
    requires 0 < num < den && 0 < k && 0 < cap
    ensures var q, b := if k * num > cap then cap else k * num, if k * den > cap then cap else k * den;
            q * den == b * num <==> k * den <= cap
  {
    Swap(k, num, den);
    MulLt(num, den, k);
    if k * den > cap {
      if k * num <= cap {
        MulLt(cap, k * den, num);
      } else {
        MulLt(num, den, cap);
      }
    }
  }

  /** The pair is at exactly the price if and only if neither amount saturates. */
  lemma ExactIffUnsaturated(num: nat, den: nat, k: nat, side: OrderSide, units: nat, pow: nat)
    requires 0 < num < den && 0 < k && pow > 0 && units > 0 && num * pow == units * den
    ensures ExactPrice(Pair(num, den, k, side), units, pow, side) <==> k * den <= U256_MAX
  {
    CapKeepsRatio(num, den, k, U256_MAX);
    ExactByFraction(Sat(k * num), Sat(k * den), num, den, units, pow);
  }

  lemma {:induction false} ExactMultiple(num: nat, den: nat, side: OrderSide, units: nat, pow: nat, other: (nat, nat)) returns (j: nat)
    requires 0 < num < den && Gcd(num, den) == 1 && pow > 0 && units > 0 && num * pow == units * den
    requires ExactPrice(other, units, pow, side)
    ensures other.0 == j * MakerUnit(num, den, side)
    ensures other.1 == j * if side.Buy? then den else num
  {
    hide Gcd;
    match side
    case Buy =>
      ExactByFraction(other.0, other.1, num, den, units, pow);
      j := PairIsMultiple(num, den, other.0, other.1);
    case Sell =>
      ExactByFraction(other.1, other.0, num, den, units, pow);
      j := PairIsMultiple(num, den, other.1, other.0);
  }

  /** With at least one unit to spend, no pair at exactly the price within the rounded amount is larger. */
  lemma LargestExactPair(num: nat, den: nat, rounded: nat, side: OrderSide, units: nat, pow: nat, other: (nat, nat))
    requires 0 < num < den && Gcd(num, den) == 1 && pow > 0 && units > 0 && num * pow == units * den
    requires var unit := MakerUnit(num, den, side); unit <= rounded && Multiplier(rounded, unit) * den <= U256_MAX
    requires ExactPrice(other, units, pow, side) && other.0 <= rounded
    ensures var pair := Pair(num, den, Multiplier(rounded, MakerUnit(num, den, side)), side);
            other.0 <= pair.0 <= rounded && other.1 <= pair.1
  {
    var unit := MakerUnit(num, den, side);
    var k := Multiplier(rounded, unit);
    var j := ExactMultiple(num, den, side, units, pow, other);
    MultiplierIsLargest(rounded, unit, j);
    hide Gcd, Multiplier, ExactPrice;
    MulLe(num, den, k);
    Swap(1, num, k);
    Swap(1, den, k);
    MulLe(j, k, num);
    MulLe(j, k, den);
  }

  lemma MultiplierIsLargest(rounded: nat, unit: nat, j: nat)
    requires 0 < unit <= rounded && j * unit <= rounded
    ensures var k := Multiplier(rounded, unit);
            k * unit <= rounded && j <= k
  {
    DivMod(rounded, unit);
    var k := rounded / unit;
    if k == 0 {
      MulLe(k, 0, unit);
    }
    if j > k {
      MulLe(k + 1, j, unit);
      MulAdd(k, 1, unit);
    }
  }

  /** With less than one unit to spend the order is the smallest one that has the price at all. */
  lemma SmallestExactPair(num: nat, den: nat, rounded: nat, side: OrderSide, units: nat, pow: nat, other: (nat, nat))
    requires 0 < num < den <= U256_MAX && Gcd(num, den) == 1 && pow > 0 && units > 0 && num * pow == units * den
    requires rounded < MakerUnit(num, den, side)
    requires ExactPrice(other, units, pow, side) && other != (0, 0)
    ensures var pair := Pair(num, den, Multiplier(rounded, MakerUnit(num, den, side)), side);
            rounded < pair.0 <= other.0 && pair.1 <= other.1
  {
    var j := ExactMultiple(num, den, side, units, pow, other);
    DivideUnique(rounded, MakerUnit(num, den, side), 0, rounded);
    hide Gcd, ExactPrice;
    if j > 0 {
      MulLe(1, j, num);
      MulLe(1, j, den);
    }
  }

  /** What an order is for: unless an amount saturates the pair is at exactly the price, and if there is a
      unit to spend no pair at exactly the price that fits the rounded amount is larger in either amount. */
  lemma BestExactOrder(price: PriceText, num: nat, den: nat, rounded: nat, side: OrderSide)
    requires PriceAccepted(price)
    requires Gcd(num, den) == 1 && 0 < num < den && num * Pow10(Scale(price)) == Units(price) * den
    requires var unit := MakerUnit(num, den, side); Multiplier(rounded, unit) * den <= U256_MAX
    ensures var unit, pow := MakerUnit(num, den, side), Pow10(Scale(price));
            var pair := Pair(num, den, Multiplier(rounded, unit), side);
            && ExactPrice(pair, Units(price), pow, side)
            && (unit <= rounded ==>
                  && pair.0 <= rounded
                  && forall other: (nat, nat) :: ExactPrice(other, Units(price), pow, side) && other.0 <= rounded ==>
                                                   other.0 <= pair.0 && other.1 <= pair.1)
  {
    var unit, pow := MakerUnit(num, den, side), Pow10(Scale(price));
    var k := Multiplier(rounded, unit);
    var pair := Pair(num, den, k, side);
    assert Units(price) > 0;
    hide Pow10, Units, Scale, Gcd, PriceAccepted;
    ExactIffUnsaturated(num, den, k, side, Units(price), pow);
    if unit <= rounded {
      LargestExactPair(num, den, rounded, side, Units(price), pow, (0, 0));
      forall other: (nat, nat) | ExactPrice(other, Units(price), pow, side) && other.0 <= rounded
        ensures other.0 <= pair.0 && other.1 <= pair.1
      {
        LargestExactPair(num, den, rounded, side, Units(price), pow, other);
      }
    }
  }
}
