/**
 * The allocation ratio: the two best suitability scores are scaled to
 * per-mille integers by truncation, and the pair is reduced by its greatest
 * common divisor (app_logic.py, step 7 of the estimation pipeline).
 */
module Ratio {
  import opened Ranking

  /** Python's int() on a float: truncation toward zero. */
  function Trunc(x: real): (r: int)
    ensures 0.0 <= x ==> 0 <= r && r as real <= x < r as real + 1.0
    ensures x < 0.0 ==> r <= 0 && r as real - 1.0 < x <= r as real
  {
    if x >= 0.0 then x.Floor else -((-x).Floor)
  }

  function Abs(n: int): nat { if n < 0 then -n else n }

  /** d is a positive divisor of n. */
  predicate Divides(d: nat, n: nat) { d > 0 && n % d == 0 }

  /** Euclid's algorithm; Gcd(0, 0) == 0, as for math.gcd. */
  function Gcd(a: nat, b: nat): nat
    decreases b
  {
    if b == 0 then a else Gcd(b, a % b)
  }

  /** math.gcd on arbitrary integers works on their absolute values, and is 0 only for (0, 0). */
  function PyGcd(a: int, b: int): (g: nat)
    ensures g == 0 <==> a == 0 && b == 0
  {
    GcdZero(Abs(a), Abs(b));
    Gcd(Abs(a), Abs(b))
  }

  /** Quotient and remainder are determined by the division equation. */
  lemma DivModUnique(x: int, d: int, q: int, r: int)
    requires d > 0 && x == d * q + r && 0 <= r < d
    ensures x / d == q && x % d == r
  {
    var t := q - x / d;
    assert d * t == x % d - r;
    SmallMultipleIsZero(d, t);
  }

  lemma SmallMultipleIsZero(d: int, t: int)
    requires d > 0 && -d < d * t < d
    ensures t == 0
  {
  }

  /** A multiple of a positive divisor is divisible by it. */
  lemma MultipleDivides(d: nat, m: nat)
    requires d > 0
    ensures Divides(d, d * m) && (d * m) / d == m
  {
    DivModUnique(d * m, d, m, 0);
  }

  /** A divisible number is its divisor times the quotient. */
  lemma DividesExact(d: nat, n: nat)
    requires Divides(d, n)
    ensures n == d * (n / d)
  {
  }

  lemma CancelFactor(g: int, z: int)
    requires g > 0 && g * z == g
    ensures z == 1
  {
  }

  /** Scaling both operands scales the remainder. */
  lemma ModScale(k: nat, x: nat, y: nat)
    requires k > 0 && y > 0
    ensures (k * x) % (k * y) == k * (x % y)
  {
    var q, r := x / y, x % y;
    assert x == y * q + r;
    assert k * x == (k * y) * q + k * r;
    assert k * r < k * y;
    DivModUnique(k * x, k * y, q, k * r);
  }

  lemma {:induction false} GcdZero(a: nat, b: nat)
    ensures Gcd(a, b) == 0 <==> a == 0 && b == 0
    decreases b
  {
    if b != 0 {
      GcdZero(b, a % b);
    }
  }

  /** Gcd(a, b) divides both a and b. */
  lemma {:induction false} GcdDivides(a: nat, b: nat)
    requires Gcd(a, b) > 0
    ensures Divides(Gcd(a, b), a) && Divides(Gcd(a, b), b)
    decreases b
  {
    if b != 0 {
      GcdDivides(b, a % b);
      DividesDividend(a, b, Gcd(b, a % b));
    }
  }

  /** A divisor of b and of a % b divides a. */
  lemma DividesDividend(a: nat, b: nat, g: nat)
    requires b > 0 && Divides(g, b) && Divides(g, a % b)
    ensures Divides(g, a)
  {
    var m, n, q := b / g, (a % b) / g, a / b;
    DividesExact(g, b);
    DividesExact(g, a % b);
    assert a == g * (m * q + n) by {
      assert a == b * q + a % b;
      assert b * q == g * (m * q) by { assert b == g * m; }
    }
    MultipleDivides(g, m * q + n);
  }

  /** Every common divisor of a and b divides Gcd(a, b). */
  lemma {:induction false} GcdGreatest(a: nat, b: nat, c: nat)
    requires Divides(c, a) && Divides(c, b)
    ensures Divides(c, Gcd(a, b))
    decreases b
  {
    if b != 0 {
      var x, y, q := a / c, b / c, a / b;
      DividesExact(c, a);
      DividesExact(c, b);
      assert a % b == c * (x - y * q) by {
        assert a % b == a - b * q;
        assert b * q == c * (y * q) by { assert b == c * y; }
      }
      assert x - y * q >= 0 by {
        assert c * (x - y * q) >= 0;
      }
      MultipleDivides(c, x - y * q);
      GcdGreatest(b, a % b, c);
    }
  }

  /** Gcd(k*x, k*y) == k * Gcd(x, y). */
  lemma {:induction false} GcdScale(k: nat, x: nat, y: nat)
    requires k > 0
    ensures Gcd(k * x, k * y) == k * Gcd(x, y)
    decreases y
  {
    if y != 0 {
      ModScale(k, x, y);
      GcdScale(k, y, x % y);
    }
  }

  /** Dividing a pair by its gcd leaves a pair in lowest terms. */
  lemma ReducedIsCoprime(a: nat, b: nat, g: nat, x: nat, y: nat)
    requires g == Gcd(a, b) && g > 0
    requires x == a / g && y == b / g
    ensures Gcd(x, y) == 1
  {
    GcdDivides(a, b);
    assert g * x == a by { DividesExact(g, a); }
    assert g * y == b by { DividesExact(g, b); }
    GcdScale(g, x, y);
    CancelFactor(g, Gcd(x, y));
  }

  /** The ratio label shown to the user (the `crop_ratio` entry of the result). */
  datatype RatioLabel =
    | Parts(num: int, den: int)              // "num:den"
    | SingleRecommendation(crop: string)     // "<crop> (single recommendation)"
    | NoClearRecommendation                  // "No clear recommendation"

  /**
   * The outcome of step 7: the simplified ratio and its label, or the case
   * where both per-mille scores are 0, math.gcd returns 0 and the floor
   * division by it raises ZeroDivisionError.
   */
  datatype CropRatio =
    | Simplified(num: int, den: int, display: RatioLabel)
    | GcdOfZeros

  /**
   * The per-mille integer of a score, int(p * 1000): the whole number of
   * thousandths, so a probability gives a value from 0 to 1000.
   */
  function PerMille(p: real): (m: int)
    ensures 0.0 <= p <= 1.0 ==> 0 <= m <= 1000
  {
    Trunc(p * 1000.0)
  }

  /** Step 7 of the pipeline on the ranked top crops (app_logic.py:147-170). */
  function SimplifiedRatio(top: seq<ClassScore>): (r: CropRatio)
    ensures |top| == 0 ==> r == Simplified(1, 0, NoClearRecommendation)
    ensures |top| == 1 || (|top| >= 2 && top[1].score <= 0.0) ==>
              r == Simplified(1, 0, SingleRecommendation(top[0].name))
    ensures r.Simplified? && r.display.Parts? ==> r.display == Parts(r.num, r.den)
  {
    if |top| >= 2 then
      if top[1].score > 0.0 then
        var p1, p2 := PerMille(top[0].score), PerMille(top[1].score);
        var g := PyGcd(p1, p2);
        if g == 0 then GcdOfZeros
        else
          // Python's floor division; for a positive divisor Dafny's `/` agrees.
          var num, den := p1 / g, p2 / g;
          Simplified(num, den, Parts(num, den))
      else Simplified(1, 0, SingleRecommendation(top[0].name))
    else if |top| == 1 then Simplified(1, 0, SingleRecommendation(top[0].name))
    else Simplified(1, 0, NoClearRecommendation)
  }

  /**
   * Step 7 as the source runs it: the ratio starts as 1:0 and each branch
   * reassigns it and its label; a zero gcd is where the floor division raises.
   */
  method SimplifyRatio(topCrops: seq<ClassScore>) returns (ratio: CropRatio)
    ensures ratio == SimplifiedRatio(topCrops)
  {
    var num, den := 1, 0;
    var ratioDisplay: RatioLabel;
    if |topCrops| >= 2 {
      var prob1, prob2 := topCrops[0].score, topCrops[1].score;
      if prob2 > 0.0 {
        var prob1Int, prob2Int := Trunc(prob1 * 1000.0), Trunc(prob2 * 1000.0);
        var gcd := PyGcd(prob1Int, prob2Int);
        if gcd == 0 {
          return GcdOfZeros;
        }
        num, den := prob1Int / gcd, prob2Int / gcd;
        ratioDisplay := Parts(num, den);
      } else {
        ratioDisplay := SingleRecommendation(topCrops[0].name);
        num, den := 1, 0;
      }
    } else if |topCrops| == 1 {
      ratioDisplay := SingleRecommendation(topCrops[0].name);
      num, den := 1, 0;
    } else {
      ratioDisplay := NoClearRecommendation;
    }
    ratio := Simplified(num, den, ratioDisplay);
  }

  /**
   * For two ranked candidates with a positive runner-up score, the ratio
   * fails exactly when the leading score truncates to 0 per mille, and
   * otherwise is the pair of per-mille scores in lowest terms: it has the
   * same proportion, its parts have no common factor, and the leader's
   * part is at least the runner-up's.
   */
  lemma RatioInLowestTerms(top: seq<ClassScore>)
    requires |top| >= 2 && top[0].score >= top[1].score > 0.0
    ensures var a, b := PerMille(top[0].score), PerMille(top[1].score);
      && 0 <= b <= a
      && (SimplifiedRatio(top).GcdOfZeros? <==> a == 0)
      && (SimplifiedRatio(top).Simplified? ==>
            var r := SimplifiedRatio(top);
            && r.display == Parts(r.num, r.den)
            && r.num > 0 && r.num >= r.den >= 0
            && r.num * b == r.den * a
            && Gcd(r.num, r.den) == 1)
  {
    var a, b := PerMille(top[0].score), PerMille(top[1].score);
    PerMilleOrder(top[0].score, top[1].score);
    RankedRatio(top, a, b);
    ReducedPair(a, b);
  }

  /** Two whole numbers a >= b >= 0 divided by their gcd, which is 0 only when a is 0. */
  lemma ReducedPair(a: nat, b: nat)
    requires b <= a
    ensures Gcd(a, b) == 0 <==> a == 0
    ensures a > 0 ==> var g := Gcd(a, b);
      var num, den := a / g, b / g;
      num > 0 && num >= den >= 0 && num * b == den * a && Gcd(num, den) == 1
  {
    GcdZero(a, b);
    if a > 0 {
      var g := Gcd(a, b);
      LowestTerms(a, b, g, a / g, b / g);
    }
  }

  /** Truncating to thousandths keeps the order of two non-negative scores. */
  lemma PerMilleOrder(p: real, q: real)
    requires p >= q >= 0.0
    ensures 0 <= PerMille(q) <= PerMille(p)
  {
  }

  /** The main branch of step 7 on two per-mille scores a >= b >= 0. */
  lemma RankedRatio(top: seq<ClassScore>, a: nat, b: nat)
    requires |top| >= 2 && top[1].score > 0.0
    requires a == PerMille(top[0].score) && b == PerMille(top[1].score)
    ensures var g := Gcd(a, b);
      SimplifiedRatio(top) == if g == 0 then GcdOfZeros else Simplified(a / g, b / g, Parts(a / g, b / g))
  {
  }

  /** A positive pair a >= b divided by its gcd: same proportion, coprime, order kept. */
  lemma LowestTerms(a: nat, b: nat, g: nat, num: nat, den: nat)
    requires b <= a && a > 0 && g == Gcd(a, b) && g > 0 && num == a / g && den == b / g
    ensures num > 0 && num >= den && num * b == den * a && Gcd(num, den) == 1
  {
    GcdDivides(a, b);
    DividesExact(g, a);
    DividesExact(g, b);
    ReducedIsCoprime(a, b, g, num, den);
    ReducedProportion(g, num, den);
    ScaledOrder(g, num, den);
  }

  lemma ReducedProportion(g: int, x: int, y: int)
    ensures x * (g * y) == y * (g * x)
  {
  }

  lemma ScaledOrder(g: int, x: int, y: int)
    requires g > 0 && g * x >= g * y
    ensures x >= y
  {
  }

  /** Common factors of the two per-mille scores do not change the ratio. */
  lemma ReductionScaleInvariant(k: nat, x: nat, y: nat)
    requires k > 0 && Gcd(x, y) > 0
    ensures Gcd(k * x, k * y) == k * Gcd(x, y)
    ensures (k * x) / Gcd(k * x, k * y) == x / Gcd(x, y)
    ensures (k * y) / Gcd(k * x, k * y) == y / Gcd(x, y)
  {
    GcdScale(k, x, y);
    var g := Gcd(x, y);
    GcdDivides(x, y);
    DividesExact(g, x);
    DividesExact(g, y);
    CancelCommonFactor(k, g, x / g);
    CancelCommonFactor(k, g, y / g);
  }

  lemma CancelCommonFactor(k: nat, g: nat, q: nat)
    requires k > 0 && g > 0
    ensures (k * (g * q)) / (k * g) == q
  {
    assert k * (g * q) == (k * g) * q;
    MultipleDivides(k * g, q);
  }

  /** Scores 0.62 and 0.38 give per-mille 620 and 380, gcd 20, ratio 31:19. */
  lemma RiceMaizeRatio()
    ensures SimplifiedRatio([ClassScore("Rice", 0.62), ClassScore("Maize", 0.38)])
            == Simplified(31, 19, Parts(31, 19))
  {
  }

  /** Scores (0.6, 0.4) and (0.06, 0.04) reduce to the same ratio, 3:2. */
  lemma RescaledScoresSameRatio()
    ensures SimplifiedRatio([ClassScore("Rice", 0.6), ClassScore("Maize", 0.4)])
            == SimplifiedRatio([ClassScore("Rice", 0.06), ClassScore("Maize", 0.04)])
            == Simplified(3, 2, Parts(3, 2))
  {
  }
}
