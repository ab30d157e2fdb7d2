/**
 * Exact probabilities: a signed numerator over a positive denominator, always kept
 * in lowest terms by Euclid's gcd. Values are read as Dafny reals, so every operator is
 * stated against the exact rational result.
 */
module ExactProbability {
  import opened Decimal

  /** `d` divides `n` (only positive divisors are considered). */
  predicate Divides(d: int, n: int) { d > 0 && n % d == 0 }

  lemma MulAtLeast(k: int, m: int)
    requires k >= 1 && m > 0
    ensures k * m >= m
  {
    assert k * m == (k - 1) * m + m;
    assert (k - 1) * m >= 0;
  }

  lemma ModUnique(x: int, m: int, q: int, r: int)
    requires m > 0 && x == q * m + r && 0 <= r < m
    ensures x % m == r && x / m == q
  {
    var q', r' := x / m, x % m;
    assert q * m + r == q' * m + r';
    if q > q' {
      MulAtLeast(q - q', m);
    } else if q < q' {
      MulAtLeast(q' - q, m);
    }
  }

  lemma DividesMul(c: int, m: int)
    requires c > 0
    ensures Divides(c, c * m)
  {
    ModUnique(c * m, c, m, 0);
  }

  lemma DividesWitness(c: int, n: int)
    requires Divides(c, n)
    ensures n == c * (n / c)
  {
  }

  lemma DividesLinear(c: int, x: int, y: int, k: int)
    requires Divides(c, x) && Divides(c, y)
    ensures Divides(c, x + k * y)
  {
    var a, b := x / c, y / c;
    assert x + k * y == c * (a + k * b) by {
      assert x == c * a;
      assert y == c * b;
      assert k * y == c * (k * b);
    }
    DividesMul(c, a + k * b);
  }

  function Gcd(a: nat, b: nat): (r: nat)
    ensures r == 0 <==> a == 0 && b == 0
    decreases b
  {
    if b == 0 then a else Gcd(b, a % b)
  }

  lemma {:induction false} GcdDivides(a: nat, b: nat)
    requires a > 0 || b > 0
    ensures Divides(Gcd(a, b), a) && Divides(Gcd(a, b), b)
    decreases b
  {
    if b == 0 {
      DividesMul(a, 1);
      DividesMul(a, 0);
    } else {
      GcdDivides(b, a % b);
      var g := Gcd(a, b);
      assert a == a % b + (a / b) * b;
      DividesLinear(g, a % b, b, a / b);
    }
  }

  lemma {:induction false} GcdGreatest(a: nat, b: nat, c: int)
    requires Divides(c, a) && Divides(c, b)
    ensures Divides(c, Gcd(a, b))
    decreases b
  {
    if b != 0 {
      assert a % b == a + (-(a / b)) * b;
      DividesLinear(c, a, b, -(a / b));
      GcdGreatest(b, a % b, c);
    }
  }

  lemma DividesBound(c: int, n: int)
    requires Divides(c, n) && n > 0
    ensures c <= n
  {
    DividesWitness(c, n);
    assert n / c >= 1;
    MulAtLeast(n / c, c);
  }

  lemma {:induction false} GcdMul(a: nat, b: nat, c: nat)
    requires c > 0
    ensures Gcd(a * c, b * c) == Gcd(a, b) * c
    decreases b
  {
    if b != 0 {
      var q, r := a / b, a % b;
      assert a * c == q * (b * c) + r * c by {
        assert a == q * b + r;
      }
      MulAtLeast(b - r, c);
      assert r * c < b * c by {
        assert (b - r) * c == b * c - r * c;
      }
      ModUnique(a * c, b * c, q, r * c);
      GcdMul(b, r, c);
    }
  }

  /** Euclid's lemma: a divisor coprime to one factor divides the other. */
  lemma Euclid(a: nat, b: nat, c: nat)
    requires a > 0 && Gcd(a, b) == 1 && Divides(a, b * c)
    ensures Divides(a, c)
  {
    if c > 0 {
      GcdMul(a, b, c);
      DividesMul(a, c);
      assert Divides(a, a * c);
      GcdGreatest(a * c, b * c, a);
    }
  }

  function Abs(n: int): nat { if n < 0 then -n else n }

  datatype Probability = Probability(numerator: int, denominator: nat)
  {
    /** Lowest terms with a positive denominator. */
    ghost predicate Valid()
    {
      denominator > 0 && Gcd(Abs(numerator), denominator) == 1
    }

    /** The rational number the fraction stands for. */
    ghost function Value(): real
      requires denominator > 0
    {
      numerator as real / denominator as real
    }
  }

  lemma CrossEqual(n1: int, d1: int, n2: int, d2: int)
    requires d1 > 0 && d2 > 0 && n1 * d2 == n2 * d1
    ensures n1 as real / d1 as real == n2 as real / d2 as real
  {
    var x, y := n1 as real / d1 as real, n2 as real / d2 as real;
    assert x * d1 as real == n1 as real;
    assert y * d2 as real == n2 as real;
    assert (n1 * d2) as real == n1 as real * d2 as real;
    assert (n2 * d1) as real == n2 as real * d1 as real;
    assert x * (d1 as real * d2 as real) == y * (d1 as real * d2 as real);
  }

  lemma ExactQuotient(n: int, g: int)
    requires Divides(g, Abs(n))
    ensures n == g * (n / g) && Abs(n / g) == Abs(n) / g
  {
    DividesWitness(g, Abs(n));
    var k := Abs(n) / g;
    if n < 0 {
      assert n == g * (-k);
      ModUnique(n, g, -k, 0);
    } else {
      assert n == g * k;
    }
  }

  lemma DividesScaled(h: int, g: int, x: int)
    requires g > 0 && Divides(h, x)
    ensures Divides(h * g, g * x)
  {
    DividesWitness(h, x);
    var k := x / h;
    assert g * x == (h * g) * k by {
      assert x == h * k;
    }
    DividesMul(h * g, k);
  }

  lemma UnitFactor(h: int, g: int)
    requires h > 0 && g > 0 && Divides(h * g, g)
    ensures h == 1
  {
    DividesBound(h * g, g);
    if h > 1 {
      MulAtLeast(h - 1, g);
    }
  }

  /** Dividing both parts by their gcd leaves them coprime. */
  lemma ReducedCoprime(a: nat, d: nat)
    requires d > 0
    ensures var g := Gcd(a, d);
      g > 0 && Divides(g, a) && Divides(g, d) && d / g > 0 && Gcd(a / g, d / g) == 1
  {
    var g := Gcd(a, d);
    GcdDivides(a, d);
    DividesWitness(g, a);
    DividesWitness(g, d);
    var a', d' := a / g, d / g;
    var h := Gcd(a', d');
    GcdDivides(a', d');
    DividesScaled(h, g, a');
    DividesScaled(h, g, d');
    GcdGreatest(a, d, h * g);
    UnitFactor(h, g);
  }

  lemma GcdCommutes(a: nat, b: nat)
    requires a > 0 || b > 0
    ensures Gcd(a, b) == Gcd(b, a)
  {
    GcdDivides(a, b);
    GcdDivides(b, a);
    GcdGreatest(b, a, Gcd(a, b));
    GcdGreatest(a, b, Gcd(b, a));
    DividesBound(Gcd(a, b), Gcd(b, a));
    DividesBound(Gcd(b, a), Gcd(a, b));
  }

  lemma RealFromCross(n1: int, d1: int, n2: int, d2: int)
    requires d1 > 0 && d2 > 0 && n1 as real / d1 as real == n2 as real / d2 as real
    ensures n1 * d2 == n2 * d1
  {
    var x := n1 as real / d1 as real;
    assert x * d1 as real == n1 as real;
    assert x * d2 as real == n2 as real;
    assert (n1 * d2) as real == n1 as real * d2 as real;
    assert (n2 * d1) as real == n2 as real * d1 as real;
  }

  lemma CoprimeCross(n1: nat, d1: nat, n2: nat, d2: nat)
    requires d1 > 0 && d2 > 0 && Gcd(n1, d1) == 1 && Gcd(n2, d2) == 1 && n1 * d2 == n2 * d1
    ensures d1 == d2
  {
    DividesMul(d1, n2);
    DividesMul(d2, n1);
    GcdCommutes(n1, d1);
    GcdCommutes(n2, d2);
    Euclid(d1, n1, d2);
    Euclid(d2, n2, d1);
    DividesBound(d1, d2);
    DividesBound(d2, d1);
  }

  lemma SameSignCross(n1: int, d1: int, n2: int, d2: int)
    requires d1 > 0 && d2 > 0 && n1 * d2 == n2 * d1
    ensures Abs(n1) * d2 == Abs(n2) * d1 && (n1 < 0 <==> n2 < 0)
  {
    assert n1 < 0 <==> n1 * d2 < 0;
    assert n2 < 0 <==> n2 * d1 < 0;
  }

  /** Two fractions in lowest terms with the same value are the same pair. */
  lemma Unique(a: Probability, b: Probability)
    requires a.Valid() && b.Valid() && a.Value() == b.Value()
    ensures a == b
  {
    var n1, d1, n2, d2 := a.numerator, a.denominator, b.numerator, b.denominator;
    RealFromCross(n1, d1, n2, d2);
    SameSignCross(n1, d1, n2, d2);
    CoprimeCross(Abs(n1), d1, Abs(n2), d2);
    assert (n1 - n2) * d1 == 0;
  }

  const NEVER: Probability := Probability(0, 1)
  const ALWAYS: Probability := Probability(1, 1)

  /** The only valid fraction worth one is `ALWAYS`. */
  lemma IsAlways(a: Probability)
    requires a.Valid() && a.Value() == 1.0
    ensures a == ALWAYS
  {
    assert ALWAYS.Valid();
    Unique(a, ALWAYS);
  }

  /** `a/b` and `ga/gb` have equal cross products. */
  lemma ScaledCross(a: int, b: int, g: int)
    ensures (g * a) * b == a * (g * b)
  {
  }

  /** Reduce to lowest terms: divide both parts by their gcd unless it is already 1. */
  function Normalise(p: Probability): (r: Probability)
    requires p.denominator > 0
    ensures r.Valid() && r.Value() == p.Value()
  {
    var g := Gcd(Abs(p.numerator), p.denominator);
    ReducedCoprime(Abs(p.numerator), p.denominator);
    ExactQuotient(p.numerator, g);
    if g != 1 then
      var r := Probability(p.numerator / g, p.denominator / g);
      ExactQuotient(p.denominator, g);
      ScaledCross(r.numerator, r.denominator, g);
      CrossEqual(p.numerator, p.denominator, r.numerator, r.denominator);
      r
    else
      p
  }

  function New(numerator: int, denominator: nat): (r: Probability)
    requires denominator > 0
    ensures r.Valid() && r.Value() == numerator as real / denominator as real
  {
    Normalise(Probability(numerator, denominator))
  }

  /** Least common multiple `l` of two positive denominators, with the factors `l / a` and `l / b`. */
  function Lcm(a: nat, b: nat): (r: (nat, nat, nat))
    requires a > 0 && b > 0
    ensures r.0 > 0 && r.1 > 0 && r.2 > 0 && r.0 == r.1 * a && r.0 == r.2 * b
    ensures r.0 * Gcd(a, b) == a * b
  {
    var g := Gcd(a, b);
    GcdDivides(a, b);
    DividesWitness(g, a);
    DividesWitness(g, b);
    var p, q := a / g, b / g;
    var l := p * b;
    LcmFactors(a, b, g, p, q);
    ModUnique(l, a, q, 0);
    ModUnique(l, b, p, 0);
    (l, l / a, l / b)
  }

  /** With `a = g p` and `b = g q`, `p b` is a common multiple of `a` and `b`, and `g` times it is `a b`. */
  lemma LcmFactors(a: int, b: int, g: int, p: int, q: int)
    requires a > 0 && b > 0 && g > 0 && a == g * p && b == g * q
    ensures p > 0 && q > 0 && p * b > 0
    ensures p * b == q * a && (p * b) * g == a * b
  {
    ScaledCross(p, q, g);
    assert (p * b) * g == (g * p) * b;
  }

  lemma ExpandOver(n: int, d: int, m: int, l: int)
    requires d > 0 && m > 0 && l == m * d
    ensures (n * m) as real / l as real == n as real / d as real
  {
    CrossEqual(n * m, l, n, d);
  }

  lemma SameDenominatorSum(x: int, y: int, l: int)
    requires l > 0
    ensures x as real / l as real + y as real / l as real == (x + y) as real / l as real
  {
  }

  lemma ProductOfFractions(x: int, y: int, l: int)
    requires l > 0
    ensures (x as real / l as real) * (y as real / l as real) == (x * y) as real / (l * l) as real
  {
    assert (x * y) as real == x as real * y as real;
    assert (l * l) as real == l as real * l as real;
  }

  lemma SameDenominatorDifference(x: int, y: int, l: int)
    requires l > 0
    ensures x as real / l as real - y as real / l as real == (x - y) as real / l as real
  {
  }

  lemma ScaledFraction(n: int, d: int, k: int)
    requires d > 0
    ensures (n * k) as real / d as real == (n as real / d as real) * k as real
  {
    assert (n * k) as real == n as real * k as real;
  }

  /** `a + b`: both brought to their least common denominator, then reduced. */
  function Add(a: Probability, b: Probability): (r: Probability)
    requires a.denominator > 0 && b.denominator > 0
    ensures r.Valid() && r.Value() == a.Value() + b.Value()
  {
    var (l, am, bm) := Lcm(a.denominator, b.denominator);
    ExpandOver(a.numerator, a.denominator, am, l);
    ExpandOver(b.numerator, b.denominator, bm, l);
    SameDenominatorSum(a.numerator * am, b.numerator * bm, l);
    Normalise(Probability(a.numerator * am + b.numerator * bm, l))
  }

  /** `a - b`, computed like `Add` with the second term negated. */
  function Sub(a: Probability, b: Probability): (r: Probability)
    requires a.denominator > 0 && b.denominator > 0
    ensures r.Valid() && r.Value() == a.Value() - b.Value()
  {
    var (l, am, bm) := Lcm(a.denominator, b.denominator);
    ExpandOver(a.numerator, a.denominator, am, l);
    ExpandOver(b.numerator, b.denominator, bm, l);
    SameDenominatorDifference(a.numerator * am, b.numerator * bm, l);
    Normalise(Probability(a.numerator * am - b.numerator * bm, l))
  }

  /** `a * b`: the numerators are scaled to the common denominator first, so the raw denominator is `lcm * lcm`. */
  function Mul(a: Probability, b: Probability): (r: Probability)
    requires a.denominator > 0 && b.denominator > 0
    ensures r.Valid() && r.Value() == a.Value() * b.Value()
  {
    var (l, am, bm) := Lcm(a.denominator, b.denominator);
    ExpandOver(a.numerator, a.denominator, am, l);
    ExpandOver(b.numerator, b.denominator, bm, l);
    ProductOfFractions(a.numerator * am, b.numerator * bm, l);
    Normalise(Probability((a.numerator * am) * (b.numerator * bm), l * l))
  }

  /** `a * k` for an integer scalar `k`. */
  function Scale(a: Probability, k: int): (r: Probability)
    requires a.denominator > 0
    ensures r.Valid() && r.Value() == a.Value() * k as real
  {
    ScaledFraction(a.numerator, a.denominator, k);
    Normalise(Probability(a.numerator * k, a.denominator))
  }

  /** `a / k` for a positive integer `k`, through the common denominator of `a` and `k`. */
  function DivInt(a: Probability, k: nat): (r: Probability)
    requires a.denominator > 0 && k > 0
    ensures r.Valid() && r.Value() == a.Value() / k as real
  {
    var (l, am, bm) := Lcm(a.denominator, k);
    ExpandOver(a.numerator, a.denominator, am, l);
    ExpandOver(1, k, bm, l);
    ProductOfFractions(a.numerator * am, 1 * bm, l);
    TimesInverse(a.Value(), k);
    Normalise(Probability((a.numerator * am) * bm, l * l))
  }

  lemma TimesInverse(x: real, k: nat)
    requires k > 0
    ensures x * (1 as real / k as real) == x / k as real
  {
  }

  lemma InverseFractions(x: int, y: int)
    requires x > 0 && y > 0
    ensures (y as real / x as real) * (x as real / y as real) == 1.0
    ensures ((-y) as real / x as real) * ((-x) as real / y as real) == 1.0
  {
    var u, v := x as real, y as real;
    assert (v / u) * (u / v) == 1.0;
    assert (-v) / u == -(v / u);
    assert (-u) / v == -(u / v);
  }

  /** `1 / p`: swaps the parts and moves a negative sign onto the numerator; no reduction is needed. */
  function Reciprocal(p: Probability): (r: Probability)
    requires p.Valid() && p.numerator != 0
    ensures r.Valid() && p.Value() * r.Value() == 1.0
    ensures r.numerator < 0 <==> p.numerator < 0
  {
    GcdCommutes(Abs(p.numerator), p.denominator);
    InverseFractions(Abs(p.numerator), p.denominator);
    if p.numerator < 0 then
      Probability(-(p.denominator as int), -p.numerator)
    else
      Probability(p.denominator, p.numerator)
  }

  /** `a / b` is `a` times the reciprocal of `b`. */
  function Div(a: Probability, b: Probability): (r: Probability)
    requires a.denominator > 0 && b.Valid() && b.numerator != 0
    ensures r.Valid() && r.Value() == a.Value() / b.Value()
  {
    var rb := Reciprocal(b);
    assert b.Value() != 0.0;
    Mul(a, rb)
  }

  /** Exact real sum of the values in `s`, from the left. */
  ghost function Total(s: seq<Probability>): real
    requires forall k :: 0 <= k < |s| ==> s[k].denominator > 0
  {
    if s == [] then 0.0 else Total(s[..|s| - 1]) + s[|s| - 1].Value()
  }

  /** Left fold of `Add` starting from `NEVER`. */
  function Sum(s: seq<Probability>): (r: Probability)
    requires forall k :: 0 <= k < |s| ==> s[k].denominator > 0
    ensures r.Valid() && r.Value() == Total(s)
  {
    if s == [] then NEVER else Add(Sum(s[..|s| - 1]), s[|s| - 1])
  }

  datatype Ordering = Less | Equal | Greater

  /** Compare by cross-multiplying the numerators up to the common denominator. */
  function Cmp(a: Probability, b: Probability): (r: Ordering)
    requires a.denominator > 0 && b.denominator > 0
    ensures r == Less <==> a.Value() < b.Value()
    ensures r == Equal <==> a.Value() == b.Value()
    ensures r == Greater <==> a.Value() > b.Value()
  {
    var (l, am, bm) := Lcm(a.denominator, b.denominator);
    ExpandOver(a.numerator, a.denominator, am, l);
    ExpandOver(b.numerator, b.denominator, bm, l);
    var x, y := a.numerator * am, b.numerator * bm;
    assert x < y <==> x as real / l as real < y as real / l as real;
    if x < y then Less else if x == y then Equal else Greater
  }

  /** Because every value is kept in lowest terms, comparing equal is structural equality. */
  lemma CmpEqualIsEquality(a: Probability, b: Probability)
    requires a.Valid() && b.Valid()
    ensures Cmp(a, b) == Equal <==> a == b
  {
    if Cmp(a, b) == Equal {
      Unique(a, b);
    }
  }

  /** The source's `gcd`: Euclid's algorithm as a loop. */
  method GcdLoop(a0: nat, b0: nat) returns (g: nat)
    ensures g == Gcd(a0, b0)
    ensures a0 > 0 || b0 > 0 ==> g > 0 && Divides(g, a0) && Divides(g, b0)
    ensures forall c :: Divides(c, a0) && Divides(c, b0) ==> Divides(c, g)
  {
    var a, b := a0, b0;
    while b != 0
      invariant Gcd(a, b) == Gcd(a0, b0)
      decreases b
    {
      var t := b;
      b := a % b;
      a := t;
    }
    g := a;
    if a0 > 0 || b0 > 0 {
      GcdDivides(a0, b0);
    }
    forall c | Divides(c, a0) && Divides(c, b0)
      ensures Divides(c, g)
    {
      GcdGreatest(a0, b0, c);
    }
  }

  /** Every fraction equal to zero normalises to `NEVER`. */
  lemma ZeroIsNever(d: nat)
    requires d > 0
    ensures New(0, d) == NEVER
  {
    assert NEVER.Valid();
    Unique(New(0, d), NEVER);
  }

  /** A normalised fraction is `NEVER` exactly when its value is zero, so `==` can test for zero. */
  lemma NeverIffZero(x: Probability)
    requires x.Valid()
    ensures x == NEVER <==> x.Value() == 0.0
  {
    assert NEVER.Valid();
    if x.Value() == 0.0 {
      Unique(x, NEVER);
    }
  }

  lemma AddCommutes(a: Probability, b: Probability)
    requires a.Valid() && b.Valid()
    ensures Add(a, b) == Add(b, a)
  {
    Unique(Add(a, b), Add(b, a));
  }

  lemma AddAssociates(a: Probability, b: Probability, c: Probability)
    requires a.Valid() && b.Valid() && c.Valid()
    ensures Add(Add(a, b), c) == Add(a, Add(b, c))
  {
    Unique(Add(Add(a, b), c), Add(a, Add(b, c)));
  }

  lemma NeverIsAddIdentity(a: Probability)
    requires a.Valid()
    ensures Add(NEVER, a) == a && Add(a, NEVER) == a
  {
    Unique(Add(NEVER, a), a);
    Unique(Add(a, NEVER), a);
  }

  lemma SubUndoesAdd(a: Probability, b: Probability)
    requires a.Valid() && b.Valid()
    ensures Add(Sub(a, b), b) == a
  {
    Unique(Add(Sub(a, b), b), a);
  }

  lemma MulCommutes(a: Probability, b: Probability)
    requires a.Valid() && b.Valid()
    ensures Mul(a, b) == Mul(b, a)
  {
    Unique(Mul(a, b), Mul(b, a));
  }

  lemma AlwaysIsMulIdentity(a: Probability)
    requires a.Valid()
    ensures Mul(ALWAYS, a) == a && Mul(a, ALWAYS) == a
  {
    Unique(Mul(ALWAYS, a), a);
    Unique(Mul(a, ALWAYS), a);
  }

  lemma ReciprocalIsInverse(a: Probability)
    requires a.Valid() && a.numerator != 0
    ensures Mul(a, Reciprocal(a)) == ALWAYS && Div(a, a) == ALWAYS
  {
    MulReciprocal(a);
    DivSelf(a);
  }

  lemma MulReciprocal(a: Probability)
    requires a.Valid() && a.numerator != 0
    ensures Mul(a, Reciprocal(a)) == ALWAYS
  {
    IsAlways(Mul(a, Reciprocal(a)));
  }

  lemma DivSelf(a: Probability)
    requires a.Valid() && a.numerator != 0
    ensures Div(a, a) == ALWAYS
  {
    IsAlways(Div(a, a));
  }

  lemma DivIntIsScaledDenominator(a: Probability, k: nat)
    requires a.Valid() && k > 0
    ensures DivInt(a, k) == New(a.numerator, a.denominator * k)
  {
    assert (a.numerator as real / a.denominator as real) / k as real
      == a.numerator as real / (a.denominator * k) as real;
    Unique(DivInt(a, k), New(a.numerator, a.denominator * k));
  }

  /** A list of valid probabilities whose exact total is one sums to `ALWAYS`. */
  lemma SumIsAlways(s: seq<Probability>)
    requires forall k :: 0 <= k < |s| ==> s[k].denominator > 0
    requires Total(s) == 1.0
    ensures Sum(s) == ALWAYS
  {
    IsAlways(Sum(s));
  }

  /** Decimal text of an integer, with a leading '-' when it is negative. */
  function IntToString(n: int): (r: string)
    ensures r != [] && (r[0] == '-' <==> n < 0)
    ensures Avoids(r, {'/'})
  {
    DigitsAvoid(Abs(n), {'/'});
    if n < 0 then "-" + NatToString(-n) else NatToString(n)
  }

  /** Different integers have different decimal text. */
  lemma IntToStringInjective(a: int, b: int)
    requires IntToString(a) == IntToString(b)
    ensures a == b
  {
    if a < 0 {
      assert NatToString(-a) == IntToString(a)[1..] == IntToString(b)[1..] == NatToString(-b);
      NatToStringInjective(-a, -b);
    } else {
      NatToStringInjective(a, b);
    }
  }

  /** `Display`: "0" for a zero numerator, otherwise "numerator/denominator". */
  function Display(p: Probability): (r: string)
    ensures r == "0" <==> p.numerator == 0
    ensures p.numerator != 0 ==> r == IntToString(p.numerator) + "/" + NatToString(p.denominator)
  {
    if p.numerator == 0 then "0" else IntToString(p.numerator) + "/" + NatToString(p.denominator)
  }

  /** Fractions in lowest terms print differently when they differ: the text determines the value. */
  lemma DisplayInjective(p: Probability, q: Probability)
    requires p.Valid() && q.Valid() && Display(p) == Display(q)
    ensures p == q
  {
    if p.numerator == 0 {
      NeverIffZero(p);
      NeverIffZero(q);
    } else {
      var x, y := NatToString(p.denominator), NatToString(q.denominator);
      assert q.numerator != 0;
      assert Display(p) == IntToString(p.numerator) + ("/" + x);
      assert Display(q) == IntToString(q.numerator) + ("/" + y);
      assert IntToString(p.numerator) + ("/" + x) == IntToString(q.numerator) + ("/" + y);
      PrefixBeforeStop(IntToString(p.numerator), "/" + x, IntToString(q.numerator), "/" + y, {'/'});
      assert x == ("/" + x)[1..] == ("/" + y)[1..] == y;
      IntToStringInjective(p.numerator, q.numerator);
      NatToStringInjective(p.denominator, q.denominator);
    }
  }

  /** The crate's own arithmetic examples. */
  lemma AddSubExamples()
    ensures Add(New(1, 2), New(1, 3)) == New(5, 6)
    ensures Add(New(1, 4), New(1, 4)) == New(1, 2)
    ensures Sum([New(1, 2), New(1, 4)]) == New(3, 4)
    ensures Sub(New(1, 2), New(1, 3)) == New(1, 6)
    ensures Sub(New(1, 4), New(1, 2)) == New(-1, 4)
  {
    Unique(Add(New(1, 2), New(1, 3)), New(5, 6));
    Unique(Add(New(1, 4), New(1, 4)), New(1, 2));
    Unique(Sum([New(1, 2), New(1, 4)]), New(3, 4));
    Unique(Sub(New(1, 2), New(1, 3)), New(1, 6));
    Unique(Sub(New(1, 4), New(1, 2)), New(-1, 4));
  }

  lemma MulDivExamples()
    ensures Mul(New(1, 2), New(1, 3)) == New(1, 6)
    ensures Mul(New(2, 3), New(3, 6)) == New(1, 3)
    ensures DivInt(New(2, 3), 2) == New(1, 3)
    ensures DivInt(New(2, 3), 3) == New(2, 9)
  {
    Unique(Mul(New(1, 2), New(1, 3)), New(1, 6));
    Unique(Mul(New(2, 3), New(3, 6)), New(1, 3));
    Unique(DivInt(New(2, 3), 2), New(1, 3));
    Unique(DivInt(New(2, 3), 3), New(2, 9));
  }

  lemma DisplayExamples()
    ensures Display(New(2, 3)) == "2/3"
    ensures Display(NEVER) == "0"
  {
    assert New(2, 3) == Probability(2, 3);
  }
}
