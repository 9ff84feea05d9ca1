/** From offer terms to the stored and the exported amount of a rebate, in exact decimals. */
module Reward {
  import opened Domain

  /** coef / 10^scale. */
  datatype Decimal = Decimal(coef: int, scale: nat)

  datatype Benefit = DollarsOff | PercentageOffForDollars | PointsTopUp | PercentageIncreaseForPoints | MultiplierForPoints
  datatype Operation = Multiplication | Addition
  datatype Terms = Terms(amount: Decimal, benefit: Benefit)
  datatype Calculation = Calculation(operand: Decimal, operation: Operation, unit: RewardType)

  function Pow10(n: nat): (p: nat)
    ensures p >= 1
  {
    if n == 0 then 1 else 10 * Pow10(n - 1)
  }

  function Times(a: Decimal, b: Decimal): Decimal {
    Decimal(a.coef * b.coef, a.scale + b.scale)
  }

  function Negated(a: Decimal): Decimal {
    Decimal(-a.coef, a.scale)
  }

  /** RewardCalculationInterpretation.result: dollar benefits are stored as deductions. */
  function Interpret(terms: Terms): Calculation {
    var usesDollars := terms.benefit in [DollarsOff, PercentageOffForDollars];
    var isAbsolute := terms.benefit in [DollarsOff, PointsTopUp];
    Calculation(
      if usesDollars then Negated(terms.amount) else terms.amount,
      if isAbsolute then Addition else Multiplication,
      if usesDollars then Dollars else Points)
  }

  /** RebateCalculation.result for a transaction of the given spend and base points. */
  function Calculate(rule: Calculation, spend: Cents, basePoints: int): Decimal {
    var amount := if rule.unit == Dollars then Negated(rule.operand) else rule.operand;
    var factor := if rule.unit == Dollars then Decimal(spend, 2) else Decimal(basePoints, 0);
    if rule.operation == Multiplication then Times(amount, factor) else amount
  }

  /** n / d to the nearest whole number, ties away from zero. */
  function RoundHalfUp(n: int, d: nat): int
    requires d > 0
  {
    if n >= 0 then (2 * n + d) / (2 * d) else -((2 * -n + d) / (2 * d))
  }

  function RoundTo(a: Decimal, places: nat): int {
    RoundHalfUp(a.coef * Pow10(places), Pow10(a.scale))
  }

  /** The amount PendingRebateIssuance writes: whole points, or dollars to the cent, both with two decimals. */
  function StoredAmount(a: Decimal, unit: RewardType): Cents {
    if unit == Points then 100 * RoundTo(a, 0) else RoundTo(a, 2)
  }

  /** Math.ceil over a number with two decimals. */
  function Ceiling(c: Cents): int {
    -(-c / 100)
  }

  /** The `rebate` column of the exported file, with two decimals. */
  function ExportedAmount(stored: Cents, unit: RewardType): Cents {
    if unit == Dollars then stored else 100 * Ceiling(stored)
  }

  ghost function Value(a: Decimal): real {
    a.coef as real / Pow10(a.scale) as real
  }

  lemma {:induction false} Pow10Adds(a: nat, b: nat)
    ensures Pow10(a + b) == Pow10(a) * Pow10(b)
  {
    if a > 0 {
      Pow10Adds(a - 1, b);
      assert Pow10(a) * Pow10(b) == 10 * (Pow10(a - 1) * Pow10(b));
    }
  }

  lemma Quotient(x: real, y: real, p: real, q: real)
    requires p != 0.0 && q != 0.0
    ensures (x * y) / (p * q) == (x / p) * (y / q)
  {
    var a, b := x / p, y / q;
    assert x == a * p && y == b * q;
    assert x * y == (a * b) * (p * q);
  }

  lemma ProductAsReal(a: int, b: int)
    ensures (a * b) as real == a as real * b as real
  {
  }

  lemma TimesValue(a: Decimal, b: Decimal)
    ensures Value(Times(a, b)) == Value(a) * Value(b)
  {
    var p, q := Pow10(a.scale), Pow10(b.scale);
    Pow10Adds(a.scale, b.scale);
    ProductAsReal(a.coef, b.coef);
    ProductAsReal(p, q);
    Quotient(a.coef as real, b.coef as real, p as real, q as real);
  }

  /** What the terms promise for a spend and its base points. */
  ghost function Promised(terms: Terms, spend: Cents, basePoints: int): real {
    match terms.benefit
    case DollarsOff => Value(terms.amount)
    case PercentageOffForDollars => Value(terms.amount) * (spend as real / 100.0)
    case PointsTopUp => Value(terms.amount)
    case PercentageIncreaseForPoints => Value(terms.amount) * basePoints as real
    case MultiplierForPoints => Value(terms.amount) * basePoints as real
  }

  /** The two sign flips cancel: the reward is the terms' amount, or that amount times spend or base points. */
  lemma InterpretThenCalculate(terms: Terms, spend: Cents, basePoints: int)
    ensures Value(Calculate(Interpret(terms), spend, basePoints)) == Promised(terms, spend, basePoints)
    ensures Interpret(terms).unit == Dollars <==> terms.benefit.DollarsOff? || terms.benefit.PercentageOffForDollars?
  {
    assert Negated(Negated(terms.amount)) == terms.amount;
    assert Pow10(2) == 100 by { assert Pow10(1) == 10; }
    TimesValue(terms.amount, Decimal(spend, 2));
    TimesValue(terms.amount, Decimal(basePoints, 0));
  }

  lemma CancelFactor(k: int, a: int, b: int)
    requires k > 0 && k * a < k * b
    ensures a < b
  {
  }

  lemma QuotientIsUnique(x: int, y: nat, q: int)
    requires y > 0
    ensures q == x / y <==> y * q <= x < y * q + y
  {
    var m := x / y;
    assert y * m <= x < y * m + y;
    if y * q <= x < y * q + y {
      assert y * (m + 1) == y * m + y && y * (q + 1) == y * q + y;
      CancelFactor(y, q, m + 1);
      CancelFactor(y, m, q + 1);
    }
  }

  /** Rounding gives the one whole number within half a unit, the upper one on a tie. */
  lemma RoundHalfUpIsNearest(n: int, d: nat, r: int)
    requires d > 0 && n >= 0
    ensures r == RoundHalfUp(n, d) <==> 2 * n - d < 2 * d * r <= 2 * n + d
  {
    QuotientIsUnique(2 * n + d, 2 * d, r);
  }

  lemma CancelPositive(k: real, a: real, b: real)
    requires k > 0.0
    ensures k * a < k * b ==> a < b
    ensures k * a <= k * b ==> a <= b
  {
    if a > b { assert k * (a - b) > 0.0; }
    if a == b { assert k * a == k * b; }
  }

  lemma RatioBound(n: real, d: real, r: real, p: real)
    requires d > 0.0 && p > 0.0
    requires 2.0 * (n * p) - d < 2.0 * (d * r) <= 2.0 * (n * p) + d
    ensures n / d - 0.5 / p < r / p <= n / d + 0.5 / p
  {
    var v, w, h, k := n / d, r / p, 0.5 / p, d * p;
    assert v * d == n && w * p == r && h * p == 0.5;
    assert k * v == n * p && k * w == d * r && k * h == 0.5 * d;
    CancelPositive(k, v - h, w);
    CancelPositive(k, w, v + h);
  }

  lemma RoundingError(n: int, d: nat, p: nat)
    requires d > 0 && p > 0 && n >= 0
    ensures var r := RoundHalfUp(n * p, d);
            r >= 0
            && n as real / d as real - 0.5 / p as real < r as real / p as real <= n as real / d as real + 0.5 / p as real
  {
    var r := RoundHalfUp(n * p, d);
    RoundHalfUpIsNearest(n * p, d, r);
    ProductAsReal(n, p);
    ProductAsReal(d, r);
    RatioBound(n as real, d as real, r as real, p as real);
  }

  /** A reward that is not negative is stored within half a cent, or half a point, of its exact value. */
  lemma StoredWithinHalfUnit(a: Decimal, unit: RewardType)
    requires a.coef >= 0
    ensures var stored := StoredAmount(a, unit) as real / 100.0;
            var half := if unit == Dollars then 0.005 else 0.5;
            stored >= 0.0 && Value(a) - half < stored <= Value(a) + half
  {
    assert Pow10(2) == 100 by { assert Pow10(1) == 10; }
    RoundingError(a.coef, Pow10(a.scale), 100);
    RoundingError(a.coef, Pow10(a.scale), 1);
  }

  /** The same bound in whole numbers, which also fixes the stored amount and its ties. */
  lemma StoredAmountExact(a: Decimal, unit: RewardType, stored: Cents)
    requires a.coef >= 0
    ensures stored == StoredAmount(a, unit) <==>
            var ulp := if unit == Points then 100 else 1;
            var d := Pow10(a.scale);
            stored % ulp == 0 && 200 * a.coef - ulp * d < 2 * d * stored <= 200 * a.coef + ulp * d
  {
    assert Pow10(2) == 100 by { assert Pow10(1) == 10; }
    var d := Pow10(a.scale);
    RoundHalfUpIsNearest(a.coef * 100, d, stored);
    RoundHalfUpIsNearest(a.coef, d, stored / 100);
    if unit == Points && stored % 100 == 0 {
      var q := stored / 100;
      assert 2 * d * stored == 100 * (2 * d * q);
    }
  }

  /** A larger reward is never stored as a smaller amount. */
  lemma StoredIsMonotone(a: Decimal, b: Decimal, unit: RewardType)
    requires 0 <= a.coef && 0 <= b.coef
    requires a.coef * Pow10(b.scale) <= b.coef * Pow10(a.scale)
    ensures StoredAmount(a, unit) <= StoredAmount(b, unit)
  {
    var x, y := Pow10(a.scale), Pow10(b.scale);
    if unit == Points {
      assert Pow10(0) == 1;
      RoundMonotone(a.coef, x, b.coef, y);
    } else {
      assert Pow10(2) == 100 by { assert Pow10(1) == 10; }
      TimesHundred(a.coef, y, b.coef, x);
      RoundMonotone(a.coef * 100, x, b.coef * 100, y);
    }
  }

  lemma TimesHundred(n: int, e: int, m: int, d: int)
    requires n * e <= m * d
    ensures (n * 100) * e <= (m * 100) * d
  {
    assert (n * 100) * e == 100 * (n * e) && (m * 100) * d == 100 * (m * d);
  }

  lemma RoundMonotone(n: int, d: nat, m: int, e: nat)
    requires n >= 0 && m >= 0 && d > 0 && e > 0
    requires n * e <= m * d
    ensures RoundHalfUp(n, d) <= RoundHalfUp(m, e)
  {
    var r, s := RoundHalfUp(n, d), RoundHalfUp(m, e);
    RoundHalfUpIsNearest(n, d, r);
    RoundHalfUpIsNearest(m, e, s);
    var k := 2 * (d * e);
    calc {
      k * r;
      e * (2 * d * r);
    <= { Scale(e, 2 * d * r, 2 * n + d); }
      e * (2 * n + d);
      2 * (n * e) + d * e;
    <=
      2 * (m * d) + d * e;
      d * (2 * m + e);
    <  { Scale(d, 2 * m + e + 1, 2 * e * s + 2 * e); }
      d * (2 * e * s + 2 * e);
      k * (s + 1);
    }
    CancelFactor(k, r, s + 1);
  }

  lemma Scale(k: int, a: int, b: int)
    requires k >= 0 && a <= b
    ensures k * a <= k * b
  {
    assert k * (b - a) >= 0;
  }

  /** The exporter's ceiling changes nothing, because stored points are whole. */
  lemma ExportKeepsStoredAmount(a: Decimal, unit: RewardType)
    ensures ExportedAmount(StoredAmount(a, unit), unit) == StoredAmount(a, unit)
  {
  }

  /** The exporter's rounding: up to the next whole number, for negative numbers as well. */
  lemma CeilingIsLeastAbove(c: Cents, n: int)
    ensures n == Ceiling(c) <==> 100 * (n - 1) < c <= 100 * n
  {
  }

  /** A deduction is stored as the negative of the addition. */
  lemma StoredIsOdd(a: Decimal, unit: RewardType)
    ensures StoredAmount(Negated(a), unit) == -StoredAmount(a, unit)
  {
    RoundToIsOdd(a, if unit == Points then 0 else 2);
  }

  lemma RoundToIsOdd(a: Decimal, places: nat)
    ensures RoundTo(Negated(a), places) == -RoundTo(a, places)
  {
    NegatedProduct(a.coef, Pow10(places));
    RoundIsOdd(a.coef * Pow10(places), Pow10(a.scale));
  }

  lemma NegatedProduct(a: int, b: int)
    ensures (-a) * b == -(a * b)
  {
  }

  lemma RoundIsOdd(n: int, d: nat)
    requires d > 0
    ensures RoundHalfUp(-n, d) == -RoundHalfUp(n, d)
  {
    if n == 0 { QuotientIsUnique(d, 2 * d, 0); }
  }

  // ---- From terms to the exported file ----

  function Stored(terms: Terms, spend: Cents, basePoints: int): Cents {
    StoredAmount(Calculate(Interpret(terms), spend, basePoints), Interpret(terms).unit)
  }

  lemma RewardNotNegative(terms: Terms, spend: Cents, basePoints: int)
    requires terms.amount.coef >= 0 && spend >= 0 && basePoints >= 0
    ensures Calculate(Interpret(terms), spend, basePoints).coef >= 0
  {
    assert terms.amount.coef * spend >= 0 && terms.amount.coef * basePoints >= 0;
  }

  /** For terms that are not negative, the exported amount is within half a cent, or half a point, of the promise. */
  lemma ExportedIsPromised(terms: Terms, spend: Cents, basePoints: int)
    requires terms.amount.coef >= 0 && spend >= 0 && basePoints >= 0
    ensures var unit := Interpret(terms).unit;
            var exported := ExportedAmount(Stored(terms, spend, basePoints), unit) as real / 100.0;
            var half := if unit == Dollars then 0.005 else 0.5;
            var promised := Promised(terms, spend, basePoints);
            exported >= 0.0 && promised - half < exported <= promised + half
  {
    var exact, unit := Calculate(Interpret(terms), spend, basePoints), Interpret(terms).unit;
    RewardNotNegative(terms, spend, basePoints);
    InterpretThenCalculate(terms, spend, basePoints);
    StoredWithinHalfUnit(exact, unit);
    ExportKeepsStoredAmount(exact, unit);
  }

  /** Spending more, or earning more base points, never stores a smaller reward. */
  lemma MoreSpendMoreReward(terms: Terms, spend: Cents, basePoints: int, spend': Cents, basePoints': int)
    requires terms.amount.coef >= 0 && 0 <= spend <= spend' && 0 <= basePoints <= basePoints'
    ensures Stored(terms, spend, basePoints) <= Stored(terms, spend', basePoints')
  {
    var a, b := Calculate(Interpret(terms), spend, basePoints), Calculate(Interpret(terms), spend', basePoints');
    RewardNotNegative(terms, spend, basePoints);
    RewardNotNegative(terms, spend', basePoints');
    Scale(terms.amount.coef, spend, spend');
    Scale(terms.amount.coef, basePoints, basePoints');
    assert a.scale == b.scale && a.coef <= b.coef;
    Scale(Pow10(a.scale), a.coef, b.coef);
    StoredIsMonotone(a, b, Interpret(terms).unit);
  }
}
