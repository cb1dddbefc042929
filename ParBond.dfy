/** Closed forms for a bond priced at par: modified duration (1 - g^-n) / (frequency * i) and
    convexity (2 / (f^2 i^2)) (1 - g^-n - n i g^-(n+1)), where g = 1 + ytm/frequency and
    i = g - 1. These are the formulas src/utils/historical-data.ts uses for its curve metrics. */
module ParBond {
  import opened Duration
  import opened DurationProperties
  import opened PriceProperties

  /** sum_{t=1..k} t / g^t */
  function TimeWeights(g: real, k: nat): real
    requires g != 0.0
  {
    if k == 0 then 0.0 else TimeWeights(g, k - 1) + k as real * Discount(g, k)
  }

  /** sum_{t=1..k} t (t+1) / g^t */
  function SquareWeights(g: real, k: nat): real
    requires g != 0.0
  {
    if k == 0 then 0.0 else SquareWeights(g, k - 1) + RisingProduct(k as real) * Discount(g, k)
  }

  /** The discount factor v^k = 1/g^k. */
  function Discount(g: real, k: nat): real
    requires g != 0.0
  {
    1.0 / Pow(g, k)
  }

  /** u == g v: u is the discount factor of one period less than v. */
  predicate DiscountLink(g: real, u: real, v: real)
  {
    u == g * v
  }

  /** t == w + x v: one step of a weighted running sum. */
  predicate WeightLink(t: real, w: real, x: real, v: real)
  {
    t == w + x * v
  }

  /** x (x + 1) */
  function RisingProduct(x: real): real
  {
    x * (x + 1.0)
  }

  /** v^(k-1) == g * v^k. */
  lemma DiscountStep(g: real, k: nat)
    requires g != 0.0 && k >= 1
    ensures DiscountLink(g, Discount(g, k - 1), Discount(g, k))
  {
    var q := Pow(g, k - 1);
    assert Pow(g, k) == g * q;
  }

  /** The closed form of TimeWeights, over plain values: i^2 t + i k d == g (1 - d), i = g - 1. */
  predicate TimeIdentity(g: real, k: real, t: real, d: real)
  {
    TimeSide(g, k, t, d) == g * (1.0 - d)
  }

  function TimeSide(g: real, k: real, t: real, d: real): real
  {
    Rate(g) * Rate(g) * t + Rate(g) * k * d
  }

  /** The closed form of SquareWeights, over plain values:
      i^2 (i s + k (k+1) d) == 2 g^2 (1 - d) - 2 k i g d, i = g - 1. */
  predicate SquareIdentity(g: real, k: real, s: real, d: real)
  {
    SquareSide(g, k, s, d) == SquareTarget(g, k, d)
  }

  function SquareSide(g: real, k: real, s: real, d: real): real
  {
    Rate(g) * Rate(g) * (Rate(g) * s + RisingProduct(k) * d)
  }

  function SquareTarget(g: real, k: real, d: real): real
  {
    2.0 * g * g * (1.0 - d) - 2.0 * k * Rate(g) * g * d
  }

  /** The algebra of one induction step of TimeWeightsClosedForm, with u = v^(k-1), v = v^k. */
  lemma TimeStep(g: real, x: real, y: real, v: real, u: real, w: real, t: real)
    requires DiscountLink(g, u, v) && y == x - 1.0
    requires TimeIdentity(g, y, w, u)
    requires WeightLink(t, w, x, v)
    ensures TimeIdentity(g, x, t, v)
  {
    var i := Rate(g);
    assert i * i * w + i * (x - 1.0) * u == g * (1.0 - u);
    calc {
      i * i * t + i * x * v;
      i * i * w + i * i * x * v + i * x * v;
      g * (1.0 - u) - i * (x - 1.0) * u + i * i * x * v + i * x * v;
      { assert u == g * v; }
      g - g * g * v - i * (x - 1.0) * g * v + i * i * x * v + i * x * v;
      g - g * v;
    }
  }

  /** The algebra of one induction step of SquareWeightsClosedForm, with u = v^(k-1), v = v^k. */
  lemma SquareStep(g: real, x: real, y: real, v: real, u: real, s: real, t: real)
    requires DiscountLink(g, u, v) && y == x - 1.0
    requires SquareIdentity(g, y, s, u)
    requires WeightLink(t, s, RisingProduct(x), v)
    ensures SquareIdentity(g, x, t, v)
  {
    SquareSideStep(g, x, y, v, u, s, t);
    SquareTargetStep(g, x, y, v, u);
  }

  /** Adding period x to the sum moves the left side by 2 i^2 x u. */
  lemma SquareSideStep(g: real, x: real, y: real, v: real, u: real, s: real, t: real)
    requires DiscountLink(g, u, v) && y == x - 1.0 && WeightLink(t, s, RisingProduct(x), v)
    ensures SquareSide(g, x, t, v) == SquareSide(g, y, s, u) + 2.0 * Rate(g) * Rate(g) * x * u
  {
    assert Rate(g) * t + RisingProduct(x) * v == Rate(g) * s + RisingProduct(x) * u;
  }

  /** ... and the right side by the same amount. */
  lemma SquareTargetStep(g: real, x: real, y: real, v: real, u: real)
    requires DiscountLink(g, u, v) && y == x - 1.0
    ensures SquareTarget(g, y, u) + 2.0 * Rate(g) * Rate(g) * x * u == SquareTarget(g, x, v)
  {
    assert g * g * u == g * g * g * v;
  }

  /** i^2 W_k + i k v^k == g (1 - v^k), with i = g - 1 and v = 1/g. */
  lemma {:induction false} TimeWeightsClosedForm(g: real, k: nat)
    requires g != 0.0
    ensures TimeIdentity(g, k as real, TimeWeights(g, k), Discount(g, k))
  {
    if k > 0 {
      TimeWeightsClosedForm(g, k - 1);
      TimeWeightsInduction(g, k);
    }
  }

  lemma TimeWeightsInduction(g: real, k: nat)
    requires g != 0.0 && k >= 1
    requires TimeIdentity(g, (k - 1) as real, TimeWeights(g, k - 1), Discount(g, k - 1))
    ensures TimeIdentity(g, k as real, TimeWeights(g, k), Discount(g, k))
  {
    DiscountStep(g, k);
    TimeWeightsStep(g, k);
    TimeStep(g, k as real, (k - 1) as real, Discount(g, k), Discount(g, k - 1),
      TimeWeights(g, k - 1), TimeWeights(g, k));
  }

  /** i^2 (i S_k + k(k+1) v^k) == 2 g^2 (1 - v^k) - 2 k i g v^k, with i = g - 1 and v = 1/g. */
  lemma {:induction false} SquareWeightsClosedForm(g: real, k: nat)
    requires g != 0.0
    ensures SquareIdentity(g, k as real, SquareWeights(g, k), Discount(g, k))
  {
    if k > 0 {
      SquareWeightsClosedForm(g, k - 1);
      SquareWeightsInduction(g, k);
    }
  }

  lemma SquareWeightsInduction(g: real, k: nat)
    requires g != 0.0 && k >= 1
    requires SquareIdentity(g, (k - 1) as real, SquareWeights(g, k - 1), Discount(g, k - 1))
    ensures SquareIdentity(g, k as real, SquareWeights(g, k), Discount(g, k))
  {
    DiscountStep(g, k);
    SquareWeightsStep(g, k);
    SquareStep(g, k as real, (k - 1) as real, Discount(g, k), Discount(g, k - 1),
      SquareWeights(g, k - 1), SquareWeights(g, k));
  }

  // ---------------------------------------------------------------------------------------
  // Formulas over plain values

  /** (c/f) t + (n/f) face d: a weighted-PV sum written with time weights t and discount d. */
  function WeightedFrom(c: real, face: real, f: real, n: real, t: real, d: real): real
    requires f != 0.0
  {
    (c / f) * t + (n / f) * face * d
  }

  /** (c/f^2) s + (n(n+1)/f^2) face d: a convexity sum written with square weights s. */
  function ConvexityFrom(c: real, face: real, f: real, n: real, s: real, d: real): real
    requires f != 0.0
  {
    (c / (f * f)) * s + (RisingProduct(n) / (f * f)) * face * d
  }

  /** (x/f) ((c + face) / q): the weighted PV of a final payment of coupon plus face value. */
  function FinalWeightedFrom(c: real, face: real, f: real, x: real, q: real): real
    requires f != 0.0 && q != 0.0
  {
    (x / f) * ((c + face) / q)
  }

  /** (x/f) (x/f + 1/f) ((c + face) / q): the convexity term of the same final payment. */
  function FinalConvexityFrom(c: real, face: real, f: real, x: real, q: real): real
    requires f != 0.0 && q != 0.0
  {
    (x / f) * (x / f + 1.0 / f) * ((c + face) / q)
  }

  /** (w / price) / g: how `calculateDuration` turns its weighted-PV sum into a modified
      duration. */
  function ModifiedRatio(w: real, price: real, g: real): real
    requires price != 0.0 && g != 0.0
  {
    (w / price) / g
  }

  /** cs / (price g^2): how `calculateDuration` turns its convexity sum into a convexity. */
  function ConvexityRatio(cs: real, price: real, g: real): real
    requires price != 0.0 && g != 0.0
  {
    cs / (price * g * g)
  }

  /** (1 - d) / (f i), i = g - 1: a par bond's modified duration, d being g^-n. */
  function ParModifiedFrom(f: real, g: real, d: real): real
    requires f > 0.0 && g != 1.0
  {
    (1.0 - d) / (f * Rate(g))
  }

  /** (2 / (f^2 i^2)) (1 - d - k i d / g), i = g - 1: a par bond's convexity, d being g^-k. */
  function ParConvexityFrom(f: real, g: real, k: real, d: real): real
    requires f > 0.0 && g != 0.0 && g != 1.0
  {
    ParScaleNonZero(f, g);
    ParConvexityOf(ParScale(f, g), ConvexityBracket(g, k, d))
  }

  /** (2 / m) b */
  function ParConvexityOf(m: real, b: real): real
    requires m != 0.0
  {
    (2.0 / m) * b
  }

  /** (f i)^2, i = g - 1. */
  function ParScale(f: real, g: real): real
  {
    Pow(f * Rate(g), 2)
  }

  lemma ParScaleNonZero(f: real, g: real)
    requires f != 0.0 && g != 1.0
    ensures ParScale(f, g) != 0.0
  {
    assert f * Rate(g) != 0.0;
  }

  /** 1 - d - k i d / g, i = g - 1. */
  function ConvexityBracket(g: real, k: real, d: real): real
    requires g != 0.0
  {
    1.0 - d - k * Rate(g) * d / g
  }

  /** years (years + 1/f) / g^2: a zero-coupon bond's convexity. */
  function ZeroCouponConvexityValue(years: real, f: real, g: real): real
    requires f > 0.0 && g != 0.0
  {
    years * (years + 1.0 / f) / (g * g)
  }

  // ---------------------------------------------------------------------------------------
  // Algebra

  /** sc m == 2 face g^2 b */
  predicate ProductHolds(sc: real, m: real, face: real, g: real, b: real)
  {
    sc * m == ConvexityTarget(face, g, b)
  }

  /** 2 face g^2 b */
  function ConvexityTarget(face: real, g: real, b: real): real
  {
    face * g * g * (2.0 * b)
  }

  /** sc f^2 (g - 1)^2 */
  function Scaled(sc: real, f: real, g: real): real
  {
    (sc * (f * f)) * (Rate(g) * Rate(g))
  }

  /** A product of non-zero numbers is non-zero. */
  lemma NonZeroProduct(a: real, b: real)
    requires a != 0.0 && b != 0.0
    ensures a * b != 0.0
  {
  }

  lemma ProductAssoc(x: real, a: real, b: real)
    ensures (x * a) * b == x * (a * b)
  {
  }

  /** a / p == n / m whenever a m == p n. */
  lemma DivFromProduct(a: real, p: real, m: real, num: real)
    requires p != 0.0 && m != 0.0 && a * m == p * num
    ensures a / p == num / m
  {
    var r := num / m;
    assert num == r * m;
    assert a * m == (p * r) * m;
    assert a == p * r;
  }
  /** (a / p) / g == a / (p g) */
  lemma DivDiv(a: real, p: real, g: real)
    requires p != 0.0 && g != 0.0
    ensures (a / p) / g == a / (p * g)
  {
  }
  /** (2 z) / m == (2 / m) z */
  lemma TwiceOver(z: real, m: real)
    requires m != 0.0
    ensures (2.0 * z) / m == (2.0 / m) * z
  {
  }
  lemma WeightedTimesF(c: real, face: real, f: real, n: real, t: real, d: real, sw: real)
    requires f != 0.0 && sw == WeightedFrom(c, face, f, n, t, d)
    ensures sw * f == c * t + n * (face * d)
  {
    assert (c / f) * f == c;
    assert (n / f) * f == n;
  }
  lemma ConvexityTimesF(c: real, face: real, f: real, n: real, s: real, d: real, sc: real)
    requires f != 0.0 && sc == ConvexityFrom(c, face, f, n, s, d)
    ensures sc * (f * f) == c * s + RisingProduct(n) * (face * d)
  {
    assert (c / (f * f)) * (f * f) == c;
    assert (RisingProduct(n) / (f * f)) * (f * f) == RisingProduct(n);
  }
  lemma ParTimeStep(c: real, face: real, f: real, g: real, t: real, n: real, d: real, sw: real)
    requires c == face * Rate(g) && sw * f == c * t + n * (face * d)
    requires TimeIdentity(g, n, t, d)
    ensures (sw * f) * Rate(g) == face * g * (1.0 - d)
  {
    var i := Rate(g);
    assert (sw * f) * i == face * (i * i * t + i * n * d);
  }
  lemma ParSquareStep(c: real, face: real, f: real, g: real, s: real, n: real, d: real, sc: real)
    requires g != 0.0 && c == face * Rate(g) && sc * (f * f) == c * s + RisingProduct(n) * (face * d)
    requires SquareIdentity(g, n, s, d)
    ensures Scaled(sc, f, g) == ConvexityTarget(face, g, ConvexityBracket(g, n, d))
  {
    ScaledSide(c, face, f, g, s, n, d, sc);
    TargetOfBracket(face, g, n, d);
  }
  /** sc f^2 i^2 == face i^2 (i s + n (n+1) d) */
  lemma ScaledSide(c: real, face: real, f: real, g: real, s: real, n: real, d: real, sc: real)
    requires c == face * Rate(g) && sc * (f * f) == c * s + RisingProduct(n) * (face * d)
    ensures Scaled(sc, f, g) == face * SquareSide(g, n, s, d)
  {
    var i := Rate(g);
    assert (sc * (f * f)) * (i * i) == face * (i * i * (i * s + RisingProduct(n) * d));
  }
  /** face (2 g^2 (1 - d) - 2 n i g d) == 2 face g^2 (1 - d - n i d / g) */
  lemma TargetOfBracket(face: real, g: real, n: real, d: real)
    requires g != 0.0
    ensures face * SquareTarget(g, n, d) == ConvexityTarget(face, g, ConvexityBracket(g, n, d))
  {
    var i := Rate(g);
    assert (n * i * d / g) * g == n * i * d;
  }
  lemma SquareAssoc(x: real, f: real, g: real)
    requires f != 0.0 && g != 1.0
    ensures Scaled(x, f, g) == x * ParScale(f, g)
  {
    SquareOfProduct(f, g);
  }
  lemma SquareOfProduct(a: real, g: real)
    ensures Pow(a * Rate(g), 2) == (a * a) * (Rate(g) * Rate(g))
  {
    assert Pow(a * Rate(g), 1) == a * Rate(g);
  }
  lemma ModifiedClosedForm(c: real, face: real, f: real, g: real, n: real, t: real, d: real, sw: real)
    requires face != 0.0 && f > 0.0 && g != 0.0 && g != 1.0 && c == face * Rate(g)
    requires sw == WeightedFrom(c, face, f, n, t, d)
    requires TimeIdentity(g, n, t, d)
    ensures ModifiedRatio(sw, face, g) == ParModifiedFrom(f, g, d)
  {
    var i := Rate(g);
    WeightedTimesF(c, face, f, n, t, d, sw);
    ParTimeStep(c, face, f, g, t, n, d, sw);
    ProductAssoc(sw, f, i);
    DivFromProduct(sw, face * g, f * i, 1.0 - d);
    DivDiv(sw, face, g);
  }
  /** sc f^2 i^2 == 2 face g^2 z for the convexity sum of a par bond. */
  lemma ConvexityProduct(c: real, face: real, f: real, g: real, n: real, s: real, d: real, sc: real)
    requires f > 0.0 && g != 0.0 && g != 1.0 && c == face * Rate(g)
    requires sc == ConvexityFrom(c, face, f, n, s, d)
    requires SquareIdentity(g, n, s, d)
    ensures ProductHolds(sc, ParScale(f, g), face, g, ConvexityBracket(g, n, d))
  {
    ConvexityTimesF(c, face, f, n, s, d, sc);
    ParSquareStep(c, face, f, g, s, n, d, sc);
    SquareAssoc(sc, f, g);
  }
  /** sc / (face g^2) == (2 / m) b whenever sc m == face g^2 (2 b). */
  lemma QuotientStep(sc: real, face: real, g: real, m: real, b: real)
    requires face != 0.0 && g != 0.0 && m != 0.0
    requires ProductHolds(sc, m, face, g, b)
    ensures ConvexityRatio(sc, face, g) == ParConvexityOf(m, b)
  {
    NonZeroProduct(face, g);
    NonZeroProduct(face * g, g);
    DivFromProduct(sc, face * g * g, m, 2.0 * b);
    TwiceOver(b, m);
  }
  lemma ConvexityQuotient(face: real, f: real, g: real, n: real, d: real, sc: real)
    requires face != 0.0 && f > 0.0 && g != 0.0 && g != 1.0
    requires ProductHolds(sc, ParScale(f, g), face, g, ConvexityBracket(g, n, d))
    ensures ConvexityRatio(sc, face, g) == ParConvexityFrom(f, g, n, d)
  {
    ParScaleNonZero(f, g);
    QuotientStep(sc, face, g, ParScale(f, g), ConvexityBracket(g, n, d));
  }
  lemma ConvexityClosedForm(c: real, face: real, f: real, g: real, n: real, s: real, d: real, sc: real)
    requires face != 0.0 && f > 0.0 && g != 0.0 && g != 1.0 && c == face * Rate(g)
    requires sc == ConvexityFrom(c, face, f, n, s, d)
    requires SquareIdentity(g, n, s, d)
    ensures ConvexityRatio(sc, face, g) == ParConvexityFrom(f, g, n, d)
  {
    ConvexityProduct(c, face, f, g, n, s, d, sc);
    ConvexityQuotient(face, f, g, n, d, sc);
  }
  /** The convexity of the single final payment of a zero-coupon bond over x = years f
      periods. */
  lemma ZeroCouponConvexityAlgebra(x: real, f: real, years: real, face: real, q: real, g: real)
    requires f > 0.0 && face != 0.0 && q != 0.0 && g != 0.0 && x == years * f
    ensures face / q != 0.0
    ensures ConvexityRatio(FinalConvexityFrom(0.0, face, f, x, q), face / q, g)
      == ZeroCouponConvexityValue(years, f, g)
  {
    var w := (x / f) * (x / f + 1.0 / f);
    assert x / f == years;
    assert w == years * (years + 1.0 / f);
    var price := face / q;
    assert price != 0.0;
    NonZeroProduct(price, g);
    NonZeroProduct(price * g, g);
    NonZeroProduct(g, g);
    assert (w * price) / (price * g * g) == w / (g * g);
  }

  /** a t, kept as a term of its own so that sums of scaled terms combine linearly. */
  function Scale(a: real, t: real): real
  {
    a * t
  }

  /** a (t0 + u) == a t0 + a u */
  lemma ScaleAdd(a: real, t0: real, u: real, t1: real)
    requires t1 == t0 + u
    ensures Scale(a, t1) == Scale(a, t0) + Scale(a, u)
  {
  }

  /** a t0 + a u == a (t0 + u), as one step of a running sum. */
  lemma ScaledStep(a: real, s0: real, t0: real, u: real, s1: real, t1: real)
    requires s0 == Scale(a, t0)
    requires s1 == s0 + Scale(a, u)
    requires t1 == t0 + u
    ensures s1 == Scale(a, t1)
  {
  }

  /** (x/f) (c/q) == (c/f) (x (1/q)) */
  lemma WeightedTerm(c: real, f: real, x: real, q: real)
    requires f != 0.0 && q != 0.0
    ensures (x / f) * (c / q) == (c / f) * (x * (1.0 / q))
  {
    assert c / q == c * (1.0 / q);
  }

  /** (x/f) (x/f + 1/f) (c/q) == (c/f^2) (x (x+1) (1/q)) */
  lemma ConvexityTermAlgebra(c: real, f: real, x: real, q: real)
    requires f != 0.0 && q != 0.0
    ensures (x / f) * (x / f + 1.0 / f) * (c / q) == (c / (f * f)) * (RisingProduct(x) * (1.0 / q))
  {
    assert x / f + 1.0 / f == (x + 1.0) / f;
    assert (x / f) * ((x + 1.0) / f) == RisingProduct(x) / (f * f);
    assert c / q == c * (1.0 / q);
  }

  /** The final payment, coupon plus face value, split into a coupon part and a face part. */
  lemma FinalWeightedAlgebra(c: real, face: real, f: real, x: real, q: real)
    requires f != 0.0 && q != 0.0
    ensures FinalWeightedFrom(c, face, f, x, q) == (c / f) * (x * (1.0 / q)) + (x / f) * face * (1.0 / q)
  {
    assert (c + face) / q == c * (1.0 / q) + face * (1.0 / q);
  }

  /** The final convexity term, coupon plus face value, split the same way. */
  lemma FinalConvexityAlgebra(c: real, face: real, f: real, x: real, q: real)
    requires f != 0.0 && q != 0.0
    ensures FinalConvexityFrom(c, face, f, x, q)
      == (c / (f * f)) * (RisingProduct(x) * (1.0 / q)) + (RisingProduct(x) / (f * f)) * face * (1.0 / q)
  {
    var w := (x / f) * (x / f + 1.0 / f);
    assert w == RisingProduct(x) / (f * f) by {
      assert x / f + 1.0 / f == (x + 1.0) / f;
    }
    assert (c + face) / q == c * (1.0 / q) + face * (1.0 / q);
    assert w * (c * (1.0 / q)) == (c / (f * f)) * (RisingProduct(x) * (1.0 / q));
  }

  // ---------------------------------------------------------------------------------------
  // The engine's sums in closed form

  /** sum_{t=1..k} (t/f) (c / g^t): the weighted-PV accumulator over coupon-only periods. */
  function CouponWeighted(c: real, f: real, g: real, k: nat): real
    requires f != 0.0 && g != 0.0
  {
    if k == 0 then 0.0 else CouponWeighted(c, f, g, k - 1) + (k as real / f) * (c / Pow(g, k))
  }

  /** sum_{t=1..k} (t/f) (t/f + 1/f) (c / g^t): the convexity accumulator over coupon-only
      periods. */
  function CouponConvexity(c: real, f: real, g: real, k: nat): real
    requires f != 0.0 && g != 0.0
  {
    if k == 0 then 0.0
    else CouponConvexity(c, f, g, k - 1) + (k as real / f) * (k as real / f + 1.0 / f) * (c / Pow(g, k))
  }

  /** The weighted-PV contribution of the final period n, paying coupon c plus face value. */
  function FinalWeighted(c: real, face: real, f: real, g: real, n: nat): real
    requires f != 0.0 && g != 0.0
  {
    FinalWeightedFrom(c, face, f, n as real, Pow(g, n))
  }

  /** The convexity contribution of the final period n, paying coupon c plus face value. */
  function FinalConvexity(c: real, face: real, f: real, g: real, n: nat): real
    requires f != 0.0 && g != 0.0
  {
    FinalConvexityFrom(c, face, f, n as real, Pow(g, n))
  }

  /** (c/f) W_n + (n/f) face g^-n: the weighted-PV sum of n whole periods, in time weights. */
  function WeightedClosed(c: real, face: real, f: real, g: real, n: nat): real
    requires f != 0.0 && g != 0.0
  {
    WeightedFrom(c, face, f, n as real, TimeWeights(g, n), Discount(g, n))
  }

  /** (c/f^2) S_n + (n(n+1)/f^2) face g^-n: the convexity sum of n whole periods, in square
      weights. */
  function ConvexityClosed(c: real, face: real, f: real, g: real, n: nat): real
    requires f != 0.0 && g != 0.0
  {
    ConvexityFrom(c, face, f, n as real, SquareWeights(g, n), Discount(g, n))
  }

  /** The modified duration of a par bond over n periods: (1 - g^-n) / (f i), i = g - 1. */
  function ParModifiedDuration(f: real, g: real, n: nat): real
    requires f > 0.0 && g != 0.0 && g != 1.0
  {
    ParModifiedFrom(f, g, Discount(g, n))
  }

  /** The convexity of a par bond over n periods: (2 / (f^2 i^2)) (1 - g^-n - n i g^-n / g). */
  function ParConvexity(f: real, g: real, n: nat): real
    requires f > 0.0 && g != 0.0 && g != 1.0
  {
    ParConvexityFrom(f, g, n as real, Discount(g, n))
  }

  /** The face-value part of the final period's weighted PV: (n/f) face g^-n. */
  function FaceWeighted(face: real, f: real, g: real, n: nat): real
    requires f != 0.0 && g != 0.0
  {
    (n as real / f) * face * Discount(g, n)
  }

  /** The face-value part of the final period's convexity term: (n (n+1) / f^2) face g^-n. */
  function FaceConvexity(face: real, f: real, g: real, n: nat): real
    requires f != 0.0 && g != 0.0
  {
    (RisingProduct(n as real) / (f * f)) * face * Discount(g, n)
  }

  /** The coupon-only weighted-PV sum is c/f times the time weights. */
  lemma {:induction false} CouponWeightedClosedForm(c: real, f: real, g: real, k: nat)
    requires f != 0.0 && g != 0.0
    ensures CouponWeighted(c, f, g, k) == Scale(c / f, TimeWeights(g, k))
  {
    if k > 0 {
      CouponWeightedClosedForm(c, f, g, k - 1);
      WeightedTermAt(c, f, g, k);
      TimeWeightsStep(g, k);
      ScaledStep(c / f, CouponWeighted(c, f, g, k - 1), TimeWeights(g, k - 1),
        k as real * Discount(g, k), CouponWeighted(c, f, g, k), TimeWeights(g, k));
    }
  }

  /** Period k's weighted PV is c/f times its time weight k v^k. */
  lemma WeightedTermAt(c: real, f: real, g: real, k: nat)
    requires f != 0.0 && g != 0.0 && k >= 1
    ensures CouponWeighted(c, f, g, k)
      == CouponWeighted(c, f, g, k - 1) + Scale(c / f, k as real * Discount(g, k))
  {
    var x, q := k as real, Pow(g, k);
    WeightedTerm(c, f, x, q);
  }

  /** The coupon-only convexity sum is c/f^2 times the square weights. */
  lemma {:induction false} CouponConvexityClosedForm(c: real, f: real, g: real, k: nat)
    requires f != 0.0 && g != 0.0
    ensures CouponConvexity(c, f, g, k) == Scale(c / (f * f), SquareWeights(g, k))
  {
    if k > 0 {
      CouponConvexityClosedForm(c, f, g, k - 1);
      ConvexityTermAt(c, f, g, k);
      SquareWeightsStep(g, k);
      ScaledStep(c / (f * f), CouponConvexity(c, f, g, k - 1), SquareWeights(g, k - 1),
        RisingProduct(k as real) * Discount(g, k), CouponConvexity(c, f, g, k), SquareWeights(g, k));
    }
  }

  /** Period k's convexity term is c/f^2 times its square weight k (k+1) v^k. */
  lemma ConvexityTermAt(c: real, f: real, g: real, k: nat)
    requires f != 0.0 && g != 0.0 && k >= 1
    ensures CouponConvexity(c, f, g, k)
      == CouponConvexity(c, f, g, k - 1) + Scale(c / (f * f), RisingProduct(k as real) * Discount(g, k))
  {
    var x, q := k as real, Pow(g, k);
    ConvexityTermAlgebra(c, f, x, q);
  }

  lemma FinalWeightedSplit(c: real, face: real, f: real, g: real, n: nat)
    requires f != 0.0 && g != 0.0
    ensures FinalWeighted(c, face, f, g, n)
      == Scale(c / f, n as real * Discount(g, n)) + FaceWeighted(face, f, g, n)
  {
    FinalWeightedAlgebra(c, face, f, n as real, Pow(g, n));
  }

  lemma FinalConvexitySplit(c: real, face: real, f: real, g: real, n: nat)
    requires f != 0.0 && g != 0.0
    ensures FinalConvexity(c, face, f, g, n)
      == Scale(c / (f * f), RisingProduct(n as real) * Discount(g, n)) + FaceConvexity(face, f, g, n)
  {
    FinalConvexityAlgebra(c, face, f, n as real, Pow(g, n));
  }

  lemma TimeWeightsScaled(a: real, g: real, n: nat)
    requires g != 0.0 && n >= 1
    ensures Scale(a, TimeWeights(g, n))
      == Scale(a, TimeWeights(g, n - 1)) + Scale(a, n as real * Discount(g, n))
  {
    TimeWeightsStep(g, n);
    ScaleAdd(a, TimeWeights(g, n - 1), n as real * Discount(g, n), TimeWeights(g, n));
  }

  lemma SquareWeightsScaled(a: real, g: real, n: nat)
    requires g != 0.0 && n >= 1
    ensures Scale(a, SquareWeights(g, n))
      == Scale(a, SquareWeights(g, n - 1)) + Scale(a, RisingProduct(n as real) * Discount(g, n))
  {
    SquareWeightsStep(g, n);
    ScaleAdd(a, SquareWeights(g, n - 1), RisingProduct(n as real) * Discount(g, n), SquareWeights(g, n));
  }

  lemma WeightedClosedDef(c: real, face: real, f: real, g: real, n: nat)
    requires f != 0.0 && g != 0.0
    ensures WeightedClosed(c, face, f, g, n) == Scale(c / f, TimeWeights(g, n)) + FaceWeighted(face, f, g, n)
  {
  }

  lemma ConvexityClosedDef(c: real, face: real, f: real, g: real, n: nat)
    requires f != 0.0 && g != 0.0
    ensures ConvexityClosed(c, face, f, g, n)
      == Scale(c / (f * f), SquareWeights(g, n)) + FaceConvexity(face, f, g, n)
  {
  }

  /** n - 1 coupon-only periods plus a final period of coupon and face value, in time weights. */
  lemma WeightedWhole(c: real, face: real, f: real, g: real, n: nat)
    requires f != 0.0 && g != 0.0 && n >= 1
    ensures CouponWeighted(c, f, g, n - 1) + FinalWeighted(c, face, f, g, n) == WeightedClosed(c, face, f, g, n)
  {
    CouponWeightedClosedForm(c, f, g, n - 1);
    FinalWeightedSplit(c, face, f, g, n);
    TimeWeightsScaled(c / f, g, n);
    WeightedClosedDef(c, face, f, g, n);
  }

  /** n - 1 coupon-only periods plus a final period of coupon and face value, in square weights. */
  lemma ConvexityWhole(c: real, face: real, f: real, g: real, n: nat)
    requires f != 0.0 && g != 0.0 && n >= 1
    ensures CouponConvexity(c, f, g, n - 1) + FinalConvexity(c, face, f, g, n) == ConvexityClosed(c, face, f, g, n)
  {
    CouponConvexityClosedForm(c, f, g, n - 1);
    FinalConvexitySplit(c, face, f, g, n);
    SquareWeightsScaled(c / (f * f), g, n);
    ConvexityClosedDef(c, face, f, g, n);
  }

  lemma ParModifiedAt(c: real, face: real, f: real, g: real, n: nat, t: real)
    requires face != 0.0 && f > 0.0 && g != 0.0 && g != 1.0 && c == face * Rate(g)
    requires t == TimeWeights(g, n)
    ensures ModifiedRatio(WeightedClosed(c, face, f, g, n), face, g) == ParModifiedDuration(f, g, n)
  {
    TimeWeightsClosedForm(g, n);
    ModifiedClosedForm(c, face, f, g, n as real, t, Discount(g, n), WeightedClosed(c, face, f, g, n));
  }

  lemma ParConvexityAt(c: real, face: real, f: real, g: real, n: nat, s: real)
    requires face != 0.0 && f > 0.0 && g != 0.0 && g != 1.0 && c == face * Rate(g)
    requires s == SquareWeights(g, n)
    ensures ConvexityRatio(ConvexityClosed(c, face, f, g, n), face, g) == ParConvexity(f, g, n)
  {
    SquareWeightsClosedForm(g, n);
    ConvexityClosedForm(c, face, f, g, n as real, s, Discount(g, n), ConvexityClosed(c, face, f, g, n));
  }

  /** With coupon c = face (g - 1) the weighted sum gives the par-bond modified duration. */
  lemma ParModifiedAlgebra(c: real, face: real, f: real, g: real, n: nat)
    requires face != 0.0 && f > 0.0 && g != 0.0 && g != 1.0 && c == face * Rate(g)
    ensures ModifiedRatio(WeightedClosed(c, face, f, g, n), face, g) == ParModifiedDuration(f, g, n)
  {
    ParModifiedAt(c, face, f, g, n, TimeWeights(g, n));
  }

  /** With coupon c = face (g - 1) the convexity sum gives the par-bond convexity. */
  lemma ParConvexityAlgebra(c: real, face: real, f: real, g: real, n: nat)
    requires face != 0.0 && f > 0.0 && g != 0.0 && g != 1.0 && c == face * Rate(g)
    ensures ConvexityRatio(ConvexityClosed(c, face, f, g, n), face, g) == ParConvexity(f, g, n)
  {
    ParConvexityAt(c, face, f, g, n, SquareWeights(g, n));
  }

  // ---------------------------------------------------------------------------------------
  // The engine's accumulators

  /** Before the final period the engine's weighted-PV and convexity accumulators are the
      coupon-only sums. */
  lemma {:induction false} EngineCouponSums(p: BondParams, k: nat)
    requires Discountable(p) && k as real < TotalPeriods(p)
    ensures SumWeighted(p, k) == CouponWeighted(PeriodicCoupon(p), p.frequency, Growth(p), k)
    ensures SumConvexity(p, k) == CouponConvexity(PeriodicCoupon(p), p.frequency, Growth(p), k)
  {
    if k > 0 {
      EngineCouponSums(p, k - 1);
      assert Payment(p, k) == PeriodicCoupon(p);
    }
  }

  /** Over n >= 1 whole periods the accumulators are the coupon-only sums of the first n - 1
      periods plus the final flow of coupon and face value. */
  lemma EngineWholeSums(p: BondParams, n: nat)
    requires Discountable(p) && n >= 1 && n as real == TotalPeriods(p)
    ensures SumWeighted(p, n) == CouponWeighted(PeriodicCoupon(p), p.frequency, Growth(p), n - 1)
      + FinalWeighted(PeriodicCoupon(p), p.faceValue, p.frequency, Growth(p), n)
    ensures SumConvexity(p, n) == CouponConvexity(PeriodicCoupon(p), p.frequency, Growth(p), n - 1)
      + FinalConvexity(PeriodicCoupon(p), p.faceValue, p.frequency, Growth(p), n)
  {
    EngineCouponSums(p, n - 1);
    assert Payment(p, n) == PeriodicCoupon(p) + p.faceValue;
  }

  /** The weighted-PV sum of any bond over n whole periods. */
  lemma {:induction false} WholeWeightedSum(p: BondParams, n: nat)
    requires Discountable(p) && n >= 1 && n as real == TotalPeriods(p)
    ensures SumWeighted(p, n) == WeightedClosed(PeriodicCoupon(p), p.faceValue, p.frequency, Growth(p), n)
  {
    EngineWholeSums(p, n);
    WeightedWhole(PeriodicCoupon(p), p.faceValue, p.frequency, Growth(p), n);
  }

  /** The convexity sum of any bond over n whole periods. */
  lemma {:induction false} WholeConvexitySum(p: BondParams, n: nat)
    requires Discountable(p) && n >= 1 && n as real == TotalPeriods(p)
    ensures SumConvexity(p, n) == ConvexityClosed(PeriodicCoupon(p), p.faceValue, p.frequency, Growth(p), n)
  {
    EngineWholeSums(p, n);
    ConvexityWhole(PeriodicCoupon(p), p.faceValue, p.frequency, Growth(p), n);
  }

  /** A whole number n >= 1 of periods is the loop count. */
  lemma PeriodCount(p: BondParams, n: nat)
    requires n >= 1 && n as real == TotalPeriods(p)
    ensures WholePeriods(p) && TotalPeriods(p) >= 1.0 && LoopCount(p) == n
  {
    assert (n as real).Floor == n;
  }

  /** A non-zero yield gives a growth factor other than 1. */
  lemma GrowthNotOne(p: BondParams)
    requires p.frequency > 0.0 && p.ytm != 0.0
    ensures Growth(p) != 1.0
  {
  }

  /** The schedule price is the present-value accumulator over the loop count. */
  lemma SchedulePriceAt(p: BondParams, n: nat)
    requires Discountable(p) && LoopCount(p) == n
    ensures SchedulePrice(p) == SumPV(p, n)
  {
  }

  /** The result record in terms of the accumulators over n = LoopCount(p) periods. */
  lemma ResultsDerive(p: BondParams, n: nat)
    requires Priceable(p) && LoopCount(p) == n
    ensures SumPV(p, n) != 0.0
    ensures Results(p) == Derive(SumPV(p, n), SumWeighted(p, n), SumConvexity(p, n), Growth(p), Flows(p, n))
  {
  }

  /** The price, modified duration and convexity fields of Derive. */
  lemma DeriveRatios(price: real, w: real, cs: real, g: real, flows: seq<CashFlow>)
    requires price != 0.0 && g != 0.0
    ensures Derive(price, w, cs, g, flows).price == price
    ensures Derive(price, w, cs, g, flows).modifiedDuration == ModifiedRatio(w, price, g)
    ensures Derive(price, w, cs, g, flows).convexity == ConvexityRatio(cs, price, g)
  {
    assert Pow(g, 1) == g;
    assert Pow(g, 2) == g * g;
    assert price * Pow(g, 2) == price * g * g;
  }

  lemma WholeResultsAt(p: BondParams, n: nat, price: real, w: real, cs: real, flows: seq<CashFlow>)
    requires Priceable(p) && LoopCount(p) == n
    requires price == SumPV(p, n) && w == SumWeighted(p, n) && cs == SumConvexity(p, n)
    requires flows == Flows(p, n)
    ensures price != 0.0
    ensures Results(p).price == price
    ensures Results(p).modifiedDuration == ModifiedRatio(w, price, Growth(p))
    ensures Results(p).convexity == ConvexityRatio(cs, price, Growth(p))
  {
    ResultsDerive(p, n);
    DeriveRatios(price, w, cs, Growth(p), flows);
  }

  /** The metrics of a bond over n = LoopCount(p) periods in terms of its accumulators. */
  lemma WholeResults(p: BondParams, n: nat)
    requires Priceable(p) && LoopCount(p) == n
    ensures SumPV(p, n) != 0.0
    ensures Results(p).price == SumPV(p, n)
    ensures Results(p).modifiedDuration == ModifiedRatio(SumWeighted(p, n), SumPV(p, n), Growth(p))
    ensures Results(p).convexity == ConvexityRatio(SumConvexity(p, n), SumPV(p, n), Growth(p))
  {
    WholeResultsAt(p, n, SumPV(p, n), SumWeighted(p, n), SumConvexity(p, n), Flows(p, n));
  }

  /** A par bond over n whole periods is priced at its face value. */
  lemma {:induction false} ParPrice(p: BondParams, n: nat)
    requires Discountable(p) && n >= 1 && n as real == TotalPeriods(p)
    requires p.couponRate == p.ytm && p.faceValue != 0.0
    ensures LoopCount(p) == n && SumPV(p, n) == p.faceValue && Priceable(p)
  {
    PeriodCount(p, n);
    ParBondSchedulePrice(p);
    SchedulePriceAt(p, n);
  }

  /** The modified duration `calculateDuration` reports for a bond priced at par at a non-zero
      yield over n whole periods: (1 - g^-n) / (frequency * i). */
  lemma {:induction false} ParBondModifiedDuration(p: BondParams, n: nat)
    requires Discountable(p) && n >= 1 && n as real == TotalPeriods(p)
    requires p.couponRate == p.ytm && p.ytm != 0.0 && p.faceValue != 0.0
    ensures Priceable(p) && LoopCount(p) == n && Growth(p) != 1.0
    ensures Results(p).modifiedDuration == ParModifiedDuration(p.frequency, Growth(p), n)
  {
    ParPrice(p, n);
    WholeResults(p, n);
    WholeWeightedSum(p, n);
    ParPeriodicCoupon(p);
    GrowthNotOne(p);
    ParModifiedAlgebra(PeriodicCoupon(p), p.faceValue, p.frequency, Growth(p), n);
  }

  /** The convexity `calculateDuration` reports for a bond priced at par at a non-zero yield
      over n whole periods: (2 / (f^2 i^2)) (1 - g^-n - n i g^-n / g). */
  lemma {:induction false} ParBondConvexity(p: BondParams, n: nat)
    requires Discountable(p) && n >= 1 && n as real == TotalPeriods(p)
    requires p.couponRate == p.ytm && p.ytm != 0.0 && p.faceValue != 0.0
    ensures Priceable(p) && LoopCount(p) == n && Growth(p) != 1.0
    ensures Results(p).convexity == ParConvexity(p.frequency, Growth(p), n)
  {
    ParPrice(p, n);
    WholeResults(p, n);
    WholeConvexitySum(p, n);
    ParPeriodicCoupon(p);
    GrowthNotOne(p);
    ParConvexityAlgebra(PeriodicCoupon(p), p.faceValue, p.frequency, Growth(p), n);
  }

  // ---------------------------------------------------------------------------------------
  // Zero-coupon bonds

  lemma {:induction false} CouponConvexityOfZero(f: real, g: real, k: nat)
    requires f != 0.0 && g != 0.0
    ensures CouponConvexity(0.0, f, g, k) == 0.0
  {
    if k > 0 {
      CouponConvexityOfZero(f, g, k - 1);
    }
  }

  lemma ZeroCouponFinalAt(face: real, f: real, g: real, n: nat, years: real, q: real)
    requires f > 0.0 && face != 0.0 && g != 0.0 && n as real == years * f && q == Pow(g, n)
    ensures face / Pow(g, n) != 0.0
    ensures ConvexityRatio(FinalConvexity(0.0, face, f, g, n), face / Pow(g, n), g)
      == ZeroCouponConvexityValue(years, f, g)
  {
    ZeroCouponConvexityAlgebra(n as real, f, years, face, q, g);
  }

  /** The convexity of the final flow of a zero-coupon bond over n = years * f periods. */
  lemma ZeroCouponFinal(face: real, f: real, g: real, n: nat, years: real)
    requires f > 0.0 && face != 0.0 && g != 0.0 && n as real == years * f
    ensures face / Pow(g, n) != 0.0
    ensures ConvexityRatio(FinalConvexity(0.0, face, f, g, n), face / Pow(g, n), g)
      == ZeroCouponConvexityValue(years, f, g)
  {
    ZeroCouponFinalAt(face, f, g, n, years, Pow(g, n));
  }

  /** The convexity sum of a zero-coupon bond is its single final term. */
  lemma {:induction false} ZeroCouponConvexitySum(p: BondParams, n: nat)
    requires Discountable(p) && n >= 1 && n as real == TotalPeriods(p) && p.couponRate == 0.0
    ensures SumConvexity(p, n) == FinalConvexity(0.0, p.faceValue, p.frequency, Growth(p), n)
  {
    EngineWholeSums(p, n);
    CouponConvexityOfZero(p.frequency, Growth(p), n - 1);
    assert PeriodicCoupon(p) == 0.0;
  }

  /** The price of a zero-coupon bond over n whole periods is its discounted face value. */
  lemma {:induction false} ZeroCouponPrice(p: BondParams, n: nat)
    requires Discountable(p) && n >= 1 && n as real == TotalPeriods(p)
    requires p.couponRate == 0.0 && p.faceValue != 0.0
    ensures LoopCount(p) == n && Priceable(p)
    ensures SumPV(p, n) == p.faceValue / Pow(Growth(p), n)
  {
    PeriodCount(p, n);
    ZeroCouponMacaulay(p);
    ZeroCouponSums(p);
  }

  /** The convexity `calculateDuration` reports for a zero-coupon bond over n whole periods:
      years (years + 1/frequency) / g^2. */
  lemma {:induction false} ZeroCouponConvexity(p: BondParams, n: nat)
    requires Discountable(p) && n >= 1 && n as real == TotalPeriods(p)
    requires p.couponRate == 0.0 && p.faceValue != 0.0
    ensures Priceable(p) && LoopCount(p) == n
    ensures Results(p).convexity == ZeroCouponConvexityValue(p.yearsToMaturity, p.frequency, Growth(p))
  {
    ZeroCouponPrice(p, n);
    WholeResults(p, n);
    ZeroCouponConvexitySum(p, n);
    ZeroCouponFinal(p.faceValue, p.frequency, Growth(p), n, p.yearsToMaturity);
  }

  lemma TimeWeightsStep(g: real, k: nat)
    requires g != 0.0 && k >= 1
    ensures WeightLink(TimeWeights(g, k), TimeWeights(g, k - 1), k as real, Discount(g, k))
  {
  }

  lemma SquareWeightsStep(g: real, k: nat)
    requires g != 0.0 && k >= 1
    ensures WeightLink(SquareWeights(g, k), SquareWeights(g, k - 1), RisingProduct(k as real), Discount(g, k))
  {
  }
}
