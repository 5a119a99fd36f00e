/** Aspect ratios of display modes, reduced with Euclid's algorithm
    (the AspectRatio class of the setup dialog). */
module AspectRatios {
  import opened Settings

  /** `d` is a positive divisor of `n`. */
  predicate Divides(d: nat, n: nat) {
    d > 0 && n % d == 0
  }

  /** Two numbers whose only common positive divisor is 1. */
  ghost predicate Coprime(a: nat, b: nat) {
    forall d {:trigger Divides(d, a), Divides(d, b)} :: Divides(d, a) && Divides(d, b) ==> d == 1
  }

  // ---------------------------------------------------------------------
  // Divisibility helpers

  lemma DividesWitness(d: nat, n: nat, k: nat)
    requires d > 0 && n == d * k
    ensures Divides(d, n) && n / d == k
  {
    DivModUnique(n, d, k, 0);
  }

  lemma DividesGetWitness(d: nat, n: nat) returns (k: nat)
    requires Divides(d, n)
    ensures n == d * k
  {
    k := n / d;
  }

  /** A common divisor of `a` and `b` divides `a % b`. */
  lemma DividesMod(d: nat, a: nat, b: nat)
    requires b > 0 && Divides(d, a) && Divides(d, b)
    ensures Divides(d, a % b)
  {
    var p := DividesGetWitness(d, a);
    var q := DividesGetWitness(d, b);
    var t := a / b;
    assert a == t * b + a % b;
    assert a % b == d * p - d * q * t;
    assert d * p - d * q * t == d * (p - q * t);
    assert p - q * t >= 0;
    DividesWitness(d, a % b, p - q * t);
  }

  /** A common divisor of `b` and `a % b` divides `a`. */
  lemma DividesFromMod(d: nat, a: nat, b: nat)
    requires b > 0 && Divides(d, b) && Divides(d, a % b)
    ensures Divides(d, a)
  {
    var q := DividesGetWitness(d, b);
    var r := DividesGetWitness(d, a % b);
    var t := a / b;
    assert a == t * b + a % b;
    assert a == d * (q * t) + d * r;
    assert a == d * (q * t + r);
    DividesWitness(d, a, q * t + r);
  }

  lemma DividesTransitive(a: nat, b: nat, c: nat)
    requires Divides(a, b) && Divides(b, c)
    ensures Divides(a, c)
  {
    var k := DividesGetWitness(a, b);
    var l := DividesGetWitness(b, c);
    assert c == a * (k * l);
    DividesWitness(a, c, k * l);
  }

  lemma DividesMultiple(a: nat, k: nat)
    requires a > 0
    ensures Divides(a, a * k)
  {
    DividesWitness(a, a * k, k);
  }

  lemma DividesBounded(d: nat, n: nat)
    requires Divides(d, n) && n > 0
    ensures d <= n
  {
    var k := DividesGetWitness(d, n);
    assert k >= 1;
    assert d * k >= d * 1;
  }

  lemma DivModOfMultiple(a: nat, b: nat, c: nat)
    requires b > 0 && c > 0
    ensures (a * c) % (b * c) == (a % b) * c
  {
    var q, r := a / b, a % b;
    assert a == q * b + r && 0 <= r < b;
    assert a * c == q * (b * c) + r * c;
    assert 0 <= r * c < b * c;
    DivModUnique(a * c, b * c, q, r * c);
  }

  lemma DivModUnique(n: int, m: int, q: int, r: int)
    requires m > 0 && n == q * m + r && 0 <= r < m
    ensures q == n / m && r == n % m
  {
    var q', r' := n / m, n % m;
    assert n == q' * m + r' && 0 <= r' < m;
    MulDistributes(q, q', m);
    if q > q' {
      MulAtLeast(q - q', m);
      assert false;
    } else if q < q' {
      MulDistributes(q', q, m);
      MulAtLeast(q' - q, m);
      assert false;
    }
  }

  lemma MulAtLeast(x: int, m: int)
    requires x >= 1 && m > 0
    ensures x * m >= m
  {
    assert x * m == (x - 1) * m + m;
  }

  lemma MulDistributes(a: int, b: int, m: int)
    ensures (a - b) * m == a * m - b * m
  {
  }

  // ---------------------------------------------------------------------
  // Euclid's algorithm (AspectRatio::GCD)

  /** Euclid's greatest common divisor, recursing on `(B, A % B)` until `B` is zero. */
  function Gcd(a: nat, b: nat): (g: nat)
    decreases b
    ensures b == 0 ==> g == a
    ensures a > 0 || b > 0 ==> g > 0 && Divides(g, a) && Divides(g, b)
    ensures a > 0 ==> g <= a
    ensures b > 0 ==> g <= b
  {
    if b == 0 then a
    else
      var r := a % b;
      var g := Gcd(b, r);
      assert Divides(g, b) && Divides(g, r);
      DividesFromMod(g, a, b);
      DividesBounded(g, b);
      assert a > 0 ==> g <= a by {
        if a > 0 {
          DividesBounded(g, a);
        }
      }
      g
  }

  /** Every common divisor of `a` and `b` divides `Gcd(a, b)`: the result is the greatest. */
  lemma {:induction false} GcdGreatest(a: nat, b: nat, d: nat)
    requires Divides(d, a) && Divides(d, b)
    ensures Divides(d, Gcd(a, b))
    decreases b
  {
    if b > 0 {
      DividesMod(d, a, b);
      GcdGreatest(b, a % b, d);
    }
  }

  /** Scaling both arguments scales the gcd. */
  lemma {:induction false} GcdScaled(a: nat, b: nat, c: nat)
    requires c > 0
    ensures Gcd(a * c, b * c) == Gcd(a, b) * c
    decreases b
  {
    if b > 0 {
      DivModOfMultiple(a, b, c);
      GcdScaled(b, a % b, c);
    }
  }

  /** Euclid's lemma: a number coprime to `b` that divides `b * c` divides `c`. */
  lemma EuclidLemma(a: nat, b: nat, c: nat)
    requires a > 0 && c > 0 && Gcd(a, b) == 1
    requires Divides(a, b * c)
    ensures Divides(a, c)
  {
    var ac, bc := a * c, b * c;
    GcdScaled(a, b, c);
    assert Gcd(ac, bc) == c;
    DividesMultiple(a, c);
    GcdGreatest(ac, bc, a);
  }

  lemma GcdOneCoprime(a: nat, b: nat)
    requires Gcd(a, b) == 1
    ensures Coprime(a, b)
  {
    forall d | Divides(d, a) && Divides(d, b) ensures d == 1 {
      GcdGreatest(a, b, d);
      DividesBounded(d, 1);
    }
  }

  // ---------------------------------------------------------------------
  // The aspect ratio value

  /** A display-mode resolution and its reduced ratio. */
  datatype AspectRatio = AspectRatio(width: Uint, height: Uint, numerator: Uint, denominator: Uint)

  /** The constructor: stores the resolution and reduces it by `Gcd(width, height)` (Reduce). */
  function Make(width: Uint, height: Uint): (r: AspectRatio)
    requires width != 0 && height != 0
    ensures r.width == width && r.height == height
    ensures r.numerator >= 1 && r.denominator >= 1
    ensures r.numerator <= width && r.denominator <= height
  {
    var g := Gcd(width, height);
    var n := width / g;
    var d := height / g;
    Quotient(width, g);
    Quotient(height, g);
    AspectRatio(width, height, n, d)
  }

  lemma Quotient(n: nat, g: nat)
    requires Divides(g, n) && n > 0
    ensures 1 <= n / g <= n && n == g * (n / g)
  {
    var k := DividesGetWitness(g, n);
    DividesWitness(g, n, k);
    assert k >= 1;
    MulAtLeast(g, k);
  }

  /** The value every AspectRatio holds: the reduced pair of its own resolution. */
  ghost predicate Reduced(r: AspectRatio) {
    r.width != 0 && r.height != 0 && r == Make(r.width, r.height)
  }

  /** Reduction divides both sides by their gcd: the result is in lowest terms and names the same ratio. */
  lemma ReduceCorrect(width: Uint, height: Uint)
    requires width != 0 && height != 0
    ensures var r := Make(width, height);
      && Gcd(r.numerator, r.denominator) == 1
      && Coprime(r.numerator, r.denominator)
      && r.numerator * height == r.denominator * width
      && width == Gcd(width, height) * r.numerator
      && height == Gcd(width, height) * r.denominator
  {
    var r := Make(width, height);
    var g := Gcd(width, height);
    var n, d := r.numerator, r.denominator;
    Quotient(width, g);
    Quotient(height, g);
    assert width == g * n && height == g * d;
    // g * h divides both width and height, hence divides g, hence h == 1.
    var h := Gcd(n, d);
    Quotient(n, h);
    Quotient(d, h);
    MulAssociates(g, h, n / h);
    MulAssociates(g, h, d / h);
    DividesWitness(g * h, width, n / h);
    DividesWitness(g * h, height, d / h);
    GcdGreatest(width, height, g * h);
    DividesBounded(g * h, g);
    if h > 1 {
      MulAtLeast(h - 1, g);
      MulDistributes(h, 1, g);
      assert false;
    }
    GcdOneCoprime(n, d);
    MulAssociates(n, g, d);
    MulAssociates(d, g, n);
  }

  lemma MulAssociates(x: int, y: int, z: int)
    ensures x * (y * z) == (x * y) * z == (y * x) * z
  {
  }

  /** The doc example: 1600x1024 reduces to 25:16. */
  lemma ReduceExample()
    ensures Make(1600, 1024).numerator == 25 && Make(1600, 1024).denominator == 16
  {
    assert Gcd(64, 0) == 64;
    assert Gcd(128, 64) == 64;
    assert Gcd(448, 128) == 64;
    assert Gcd(576, 448) == 64;
    assert Gcd(1024, 576) == 64;
    assert Gcd(1600, 1024) == 64;
  }

  /** `operator ==`: equal reduced pairs. */
  predicate Same(a: AspectRatio, b: AspectRatio): (r: bool)
    ensures a == b ==> r
    ensures r && a.denominator != 0 ==> b.denominator != 0 && GetRatio(a) == GetRatio(b)
  {
    a.numerator == b.numerator && a.denominator == b.denominator
  }

  /** `operator <`: compares numerators only. It never holds between `==`
      ratios, and it agrees with the order of the values only when the
      denominators are equal. */
  predicate Less(a: AspectRatio, b: AspectRatio): (r: bool)
    ensures r ==> !Same(a, b)
    ensures a.denominator == b.denominator > 0 ==> (r <==> GetRatio(a) < GetRatio(b))
  {
    a.numerator < b.numerator
  }

  /** GetRatio, over reals instead of `float`. */
  function GetRatio(a: AspectRatio): (q: real)
    requires a.denominator != 0
    ensures q > 0.0 <==> a.numerator > 0
  {
    a.numerator as real / a.denominator as real
  }

  /** GetRatio of a constructed ratio is width / height. */
  lemma GetRatioIsWidthOverHeight(width: Uint, height: Uint)
    requires width != 0 && height != 0
    ensures GetRatio(Make(width, height)) == width as real / height as real
  {
    var r := Make(width, height);
    ReduceCorrect(width, height);
    QuotientsEqual(r.numerator, r.denominator, width, height);
  }

  /** Fractions with equal cross products are equal. */
  lemma QuotientsEqual(a: nat, b: nat, c: nat, d: nat)
    requires b > 0 && d > 0 && a * d == b * c
    ensures a as real / b as real == c as real / d as real
  {
    var x, y, z, w := a as real, b as real, c as real, d as real;
    assert x * w == y * z by {
      assert (a * d) as real == x * w;
      assert (b * c) as real == y * z;
    }
    calc {
      x / y;
      (x * w) / (y * w);
      (y * z) / (y * w);
      z / w;
    }
  }

  /** Equal fractions have equal cross products. */
  lemma CrossEqual(a: nat, b: nat, c: nat, d: nat)
    requires b > 0 && d > 0 && a as real / b as real == c as real / d as real
    ensures a * d == b * c
  {
    var x, y, z, w := a as real, b as real, c as real, d as real;
    var q := x / y;
    assert x == q * y;
    assert z == q * w;
    assert x * w == q * y * w == y * z;
    assert (a * d) as real == x * w;
    assert (b * c) as real == y * z;
  }

  /** Cross-multiplied equal pairs that are both in lowest terms are identical. */
  lemma LowestTermsUnique(n1: nat, d1: nat, n2: nat, d2: nat)
    requires n1 > 0 && d1 > 0 && n2 > 0 && d2 > 0
    requires Gcd(n1, d1) == 1 && Gcd(n2, d2) == 1
    requires n1 * d2 == n2 * d1
    ensures n1 == n2 && d1 == d2
  {
    // n1 divides d1 * n2, so n1 divides n2; symmetrically n2 divides n1.
    var p, q := d1 * n2, d2 * n1;
    assert p == n1 * d2 && q == n2 * d1;
    DividesWitness(n1, p, d2);
    EuclidLemma(n1, d1, n2);
    DividesWitness(n2, q, d1);
    EuclidLemma(n2, d2, n1);
    DividesBounded(n1, n2);
    DividesBounded(n2, n1);
    assert n1 == n2;
    assert n1 * d1 == n1 * d2;
    MulCancel(n1, d1, d2);
  }

  lemma MulCancel(x: int, a: int, b: int)
    requires x > 0 && x * a == x * b
    ensures a == b
  {
    MulDistributes(a, b, x);
    if a > b {
      MulAtLeast(a - b, x);
    } else if a < b {
      MulDistributes(b, a, x);
      MulAtLeast(b - a, x);
    }
  }

  /** `operator ==` of two constructed ratios holds iff their resolutions cross-multiply equally. */
  lemma SameIffCrossEqual(w1: Uint, h1: Uint, w2: Uint, h2: Uint)
    requires w1 != 0 && h1 != 0 && w2 != 0 && h2 != 0
    ensures Same(Make(w1, h1), Make(w2, h2)) <==> w1 * h2 == w2 * h1
  {
    var a, b := Make(w1, h1), Make(w2, h2);
    ReduceCorrect(w1, h1);
    ReduceCorrect(w2, h2);
    ScaledCrossEqual(w1, h1, w2, h2, Gcd(w1, h1), Gcd(w2, h2),
                     a.numerator, a.denominator, b.numerator, b.denominator);
  }

  lemma ScaledCrossEqual(w1: nat, h1: nat, w2: nat, h2: nat, g1: nat, g2: nat,
                         n1: nat, d1: nat, n2: nat, d2: nat)
    requires g1 > 0 && g2 > 0 && n1 > 0 && d1 > 0 && n2 > 0 && d2 > 0
    requires w1 == g1 * n1 && h1 == g1 * d1 && w2 == g2 * n2 && h2 == g2 * d2
    requires Gcd(n1, d1) == 1 && Gcd(n2, d2) == 1
    ensures n1 == n2 && d1 == d2 <==> w1 * h2 == w2 * h1
  {
    var g, p, q := g1 * g2, n1 * d2, n2 * d1;
    assert w1 * h2 == g * p by {
      Rearrange(g1, n1, g2, d2);
    }
    assert w2 * h1 == g * q by {
      Rearrange(g2, n2, g1, d1);
      assert g2 * g1 == g;
    }
    if w1 * h2 == w2 * h1 {
      MulAtLeast(g1, g2);
      MulCancel(g, p, q);
      LowestTermsUnique(n1, d1, n2, d2);
    }
  }

  lemma Rearrange(a: int, b: int, c: int, d: int)
    ensures (a * b) * (c * d) == (a * c) * (b * d)
  {
  }

  /** Equal ratio values mean equal reduced pairs: `operator ==` agrees with GetRatio. */
  lemma SameIffEqualRatio(a: AspectRatio, b: AspectRatio)
    requires Reduced(a) && Reduced(b)
    ensures Same(a, b) <==> GetRatio(a) == GetRatio(b)
  {
    ReduceCorrect(a.width, a.height);
    ReduceCorrect(b.width, b.height);
    if GetRatio(a) == GetRatio(b) {
      CrossEqual(a.numerator, a.denominator, b.numerator, b.denominator);
      LowestTermsUnique(a.numerator, a.denominator, b.numerator, b.denominator);
    }
  }

  /** The doc example: 1920x1080 and 1280x720 are equal ratios. */
  lemma SameExample()
    ensures Same(Make(1920, 1080), Make(1280, 720))
  {
    SameIffCrossEqual(1920, 1080, 1280, 720);
  }

  // ---------------------------------------------------------------------
  // GetDesc

  function DigitChar(d: nat): (c: char)
    requires d < 10
    ensures '0' <= c <= '9'
  {
    "0123456789"[d]
  }

  /** Decimal rendering of an unsigned number, as `operator<<` prints it. */
  function Decimal(n: nat): (s: string)
    ensures |s| >= 1
    ensures forall i :: 0 <= i < |s| ==> '0' <= s[i] <= '9'
    decreases n
  {
    if n < 10 then [DigitChar(n)] else Decimal(n / 10) + [DigitChar(n % 10)]
  }

  function DigitValue(c: char): nat
    requires '0' <= c <= '9'
  {
    (c as int - '0' as int) as nat
  }

  /** Reads a run of decimal digits back. */
  function ParseDecimal(s: string): nat
    requires forall i :: 0 <= i < |s| ==> '0' <= s[i] <= '9'
  {
    if s == [] then 0 else ParseDecimal(s[..|s| - 1]) * 10 + DigitValue(s[|s| - 1])
  }

  lemma {:induction false} DecimalRoundTrip(n: nat)
    ensures ParseDecimal(Decimal(n)) == n
    decreases n
  {
    var s := Decimal(n);
    if n < 10 {
      assert s == [DigitChar(n)];
      assert s[..0] == [];
    } else {
      DecimalRoundTrip(n / 10);
      assert s[..|s| - 1] == Decimal(n / 10);
    }
  }

  /** The "numerator:denominator" head of every description. */
  function DescPrefix(a: AspectRatio): string {
    Decimal(a.numerator) + ":" + Decimal(a.denominator)
  }

  /** The threshold that decides whether a reduction "might look unintuitive". */
  predicate NeedsDetail(a: AspectRatio) {
    a.numerator > 16 || a.denominator > 10
  }

  /** The detail GetDesc appends: the original size and the ratio value. */
  function Detail(a: AspectRatio, ratioText: string): (d: string)
    ensures |d| > 0 && d[0] == ' '
  {
    " (" + Decimal(a.width) + "x" + Decimal(a.height) + ", ratio: " + ratioText + ")"
  }

  /** GetDesc. The `setprecision(3)` rendering of the float ratio is not modelled:
      it is passed in as `ratioText`. */
  function GetDesc(a: AspectRatio, ratioText: string): (desc: string)
    ensures |DescPrefix(a)| <= |desc| && desc[..|DescPrefix(a)|] == DescPrefix(a)
    ensures |desc| > |DescPrefix(a)| <==> NeedsDetail(a)
    ensures NeedsDetail(a) ==> desc[|DescPrefix(a)|..] == Detail(a, ratioText)
  {
    var prefix := DescPrefix(a);
    var tail := if NeedsDetail(a) then Detail(a, ratioText) else "";
    assert (prefix + tail)[..|prefix|] == prefix;
    assert (prefix + tail)[|prefix|..] == tail;
    prefix + tail
  }

  /** Two ratios have the same description head iff they are `==`: the combo-box texts
      tell unequal ratios apart. */
  lemma DescPrefixIffSame(a: AspectRatio, b: AspectRatio)
    ensures DescPrefix(a) == DescPrefix(b) <==> Same(a, b)
  {
    if DescPrefix(a) == DescPrefix(b) {
      var na, da := Decimal(a.numerator), Decimal(a.denominator);
      var nb, db := Decimal(b.numerator), Decimal(b.denominator);
      var pa, pb := na + ":" + da, nb + ":" + db;
      // The colon is the only non-digit, so it sits at the same place in both.
      assert pa[|na|] == ':' && pb[|nb|] == ':';
      assert |na| == |nb|;
      assert na == pa[..|na|] == pb[..|nb|] == nb;
      assert da == pa[|na| + 1..] == pb[|nb| + 1..] == db;
      DecimalRoundTrip(a.numerator);
      DecimalRoundTrip(b.numerator);
      DecimalRoundTrip(a.denominator);
      DecimalRoundTrip(b.denominator);
    }
  }

  /** The doc example: 1600x1024 is described with extra detail, 1920x1080 (16:9) is not. */
  lemma DescExamples()
    ensures NeedsDetail(Make(1600, 1024))
    ensures !NeedsDetail(Make(1920, 1080))
  {
    ReduceExample();
    assert Gcd(1920, 1080) == 120;
  }
}
