/** Divisors, Bezout coefficients and the Chinese remainder theorem for a list of moduli. */
module Remainders {

  /** No divisor above one is common to both. */
  ghost predicate Coprime(a: int, b: int) {
    forall d :: d > 1 ==> !(a % d == 0 && b % d == 0)
  }

  lemma {:induction false} Scaled(n: int, x: int, y: int)
    requires n >= 0 && x <= y
    ensures n * x <= n * y
  {
  }

  lemma {:induction false} OneLess(n: int, q: int)
    ensures n * (q - 1) == n * q - n
  {
  }

  lemma {:induction false} ExactQuotient(total: int, n: int)
    requires n > 0 && total >= 0 && total % n == 0
    ensures total == n * (total / n) && total / n >= 0
  {
  }

  lemma {:induction false} SameDivision(n: int, q: int, r: int, q': int, r': int)
    requires 0 <= r < n && 0 <= r' < n && n * q + r == n * q' + r'
    ensures q == q' && r == r'
  {
    if q < q' {
      Scaled(n, q + 1, q');
    } else if q' < q {
      Scaled(n, q' + 1, q);
    }
  }

  lemma {:induction false} QuotientUnique(i: int, n: int, q: int, r: int)
    requires 0 <= r < n && i == n * q + r
    ensures i % n == r && i / n == q
  {
    assert i == n * (i / n) + i % n;
    SameDivision(n, q, r, i / n, i % n);
  }

  /** Multiples of the modulus do not change a remainder. */
  lemma {:induction false} AddMultiple(i: int, n: int, k: int)
    requires n > 0
    ensures (i + n * k) % n == i % n
  {
    QuotientUnique(i + n * k, n, i / n + k, i % n);
  }

  lemma {:induction false} MultipleHasNoRemainder(n: int, k: int)
    requires n > 0
    ensures (n * k) % n == 0
  {
    AddMultiple(0, n, k);
  }

  /** A divisor of the modulus sees the same remainder. */
  lemma {:induction false} RemainderOfDivisor(i: int, n: int, d: int)
    requires n > 0 && d > 0 && n % d == 0
    ensures (i % n) % d == i % d
  {
    var k := (n / d) * (i / n);
    assert n == d * (n / d);
    assert i == n * (i / n) + i % n;
    assert n * (i / n) == d * k;
    AddMultiple(i % n, d, k);
  }

  lemma {:induction false} EuclidStep(a: int, b: int)
    requires a > 0 && b > 0 && Coprime(a, b)
    ensures Coprime(b, a % b)
  {
    var q, r := a / b, a % b;
    forall d | d > 1 ensures !(b % d == 0 && r % d == 0) {
      if b % d == 0 && r % d == 0 {
        assert a == r + d * ((b / d) * q) by { assert a == b * q + r && b == d * (b / d); }
        AddMultiple(r, d, (b / d) * q);
        assert false;
      }
    }
  }

  /** Euclid: coefficients that combine two coprime numbers to one. */
  lemma {:induction false} Bezout(a: int, b: int) returns (s: int, t: int)
    requires a > 0 && b >= 0 && Coprime(a, b)
    ensures a * s + b * t == 1
    decreases b
  {
    if b == 0 {
      assert a % a == 0 && 0 % a == 0;
      s, t := 1, 0;
    } else {
      var q, r := a / b, a % b;
      EuclidStep(a, b);
      var s', t' := Bezout(b, r);
      s, t := t', s' - q * t';
      assert a == b * q + r;
      assert a * t' == (b * q) * t' + r * t' && (b * q) * t' == b * (q * t') && b * t == b * s' - b * (q * t');
    }
  }

  /** Numbers combined to one are coprime. */
  lemma {:induction false} CombinedCoprime(a: int, b: int, s: int, t: int)
    requires a * s + b * t == 1
    ensures Coprime(a, b)
  {
    forall d | d > 1 ensures !(a % d == 0 && b % d == 0) {
      if a % d == 0 && b % d == 0 {
        assert a == d * (a / d) && b == d * (b / d);
        assert 1 == d * ((a / d) * s + (b / d) * t);
        MultipleHasNoRemainder(d, (a / d) * s + (b / d) * t);
        assert false;
      }
    }
  }

  lemma {:induction false} CoprimeProduct(a: int, b: int, c: int)
    requires a > 0 && b > 0 && c > 0 && Coprime(a, c) && Coprime(b, c)
    ensures Coprime(a * b, c)
  {
    var s, t := Bezout(a, c);
    var s', t' := Bezout(b, c);
    assert (a * b) * (s * s') + c * (a * s * t' + t * (b * s' + c * t')) == (a * s + c * t) * (b * s' + c * t');
    CombinedCoprime(a * b, c, s * s', a * s * t' + t * (b * s' + c * t'));
  }

  lemma {:induction false} Balanced(a: int, b: int, s: int, t: int, x: int, y: int)
    requires a * s + b * t == 1
    ensures x + a * (s * (y - x)) == y + b * (t * (x - y))
  {
    var d := y - x;
    assert a * (s * d) == (a * s) * d && b * (t * -d) == -((b * t) * d);
    assert (a * s) * d + (b * t) * d == (a * s + b * t) * d;
  }

  lemma {:induction false} Reduced(a: int, b: int, n: int, j: int) returns (i: int)
    requires a > 0 && b > 0 && n > 0 && n % a == 0 && n % b == 0
    ensures 0 <= i < n && i % a == j % a && i % b == j % b
  {
    i := j % n;
    RemainderOfDivisor(j, n, a);
    RemainderOfDivisor(j, n, b);
  }

  lemma {:induction false} Congruent(a: int, b: int, x: int, y: int) returns (j: int)
    requires a > 0 && b > 0 && Coprime(a, b) && 0 <= x < a && 0 <= y < b
    ensures j % a == x && j % b == y
  {
    var s, t := Bezout(a, b);
    var u, v := s * (y - x), t * (x - y);
    Balanced(a, b, s, t, x, y);
    j := x + a * u;
    QuotientUnique(j, a, u, x);
    assert j == b * v + y;
    QuotientUnique(j, b, v, y);
  }

  lemma {:induction false} ProductDivides(a: int, b: int)
    requires a > 0 && b > 0
    ensures a * b > 0 && (a * b) % a == 0 && (a * b) % b == 0
  {
    Scaled(a, 1, b);
    MultipleHasNoRemainder(a, b);
    MultipleHasNoRemainder(b, a);
  }

  /** Two moduli: some number below the product has the two given remainders. */
  lemma {:induction false} TwoRemainders(a: int, b: int, x: int, y: int) returns (i: int)
    requires a > 0 && b > 0 && Coprime(a, b) && 0 <= x < a && 0 <= y < b
    ensures 0 <= i < a * b && i % a == x && i % b == y
  {
    var j := Congruent(a, b, x, y);
    ProductDivides(a, b);
    var n := a * b;
    i := Reduced(a, b, n, j);
  }

  // ---- A list of moduli ----

  function Product(ns: seq<int>): int {
    if ns == [] then 1 else Product(ns[..|ns| - 1]) * ns[|ns| - 1]
  }

  lemma {:induction false} ProductNext(ns: seq<int>, n: int)
    ensures Product(ns + [n]) == Product(ns) * n
  {
    assert (ns + [n])[..|ns|] == ns;
  }

  ghost predicate Positive(ns: seq<int>) {
    forall k | 0 <= k < |ns| :: ns[k] > 0
  }

  ghost predicate PairwiseCoprime(ns: seq<int>) {
    forall j, k | 0 <= j < k < |ns| :: Coprime(ns[j], ns[k])
  }

  /** One remainder for each modulus. */
  ghost predicate IsChoice(ns: seq<int>, c: seq<int>) {
    |c| == |ns| && forall k | 0 <= k < |ns| :: 0 <= c[k] < ns[k]
  }

  /** i has the chosen remainders. */
  ghost predicate Meets(ns: seq<int>, c: seq<int>, i: int)
    requires |c| == |ns| && Positive(ns)
  {
    forall k | 0 <= k < |ns| :: i % ns[k] == c[k]
  }

  lemma {:induction false} ProductPositive(ns: seq<int>)
    requires Positive(ns)
    ensures Product(ns) > 0 && forall k | 0 <= k < |ns| :: Product(ns) % ns[k] == 0
  {
    if ns != [] {
      var init, n := ns[..|ns| - 1], ns[|ns| - 1];
      ProductPositive(init);
      ProductDivides(Product(init), n);
      forall k | 0 <= k < |init| ensures Product(ns) % ns[k] == 0 {
        RemainderOfDivisor(Product(init) * n, Product(init), ns[k]);
      }
    }
  }

  lemma {:induction false} CoprimeToProduct(ns: seq<int>, n: int)
    requires Positive(ns) && n > 0 && forall k | 0 <= k < |ns| :: Coprime(ns[k], n)
    ensures Coprime(Product(ns), n)
  {
    if ns == [] {
      CombinedCoprime(1, n, 1, 0);
    } else {
      var init := ns[..|ns| - 1];
      CoprimeToProduct(init, n);
      ProductPositive(init);
      CoprimeProduct(Product(init), ns[|ns| - 1], n);
    }
  }

  /** Every choice of remainders is met below the product when the moduli are pairwise coprime. */
  lemma {:induction false} ChoiceMet(ns: seq<int>, c: seq<int>) returns (i: int)
    requires Positive(ns) && PairwiseCoprime(ns) && IsChoice(ns, c)
    ensures 0 <= i < Product(ns) && Meets(ns, c, i)
  {
    if ns == [] {
      i := 0;
    } else {
      var k := |ns| - 1;
      var init, n := ns[..k], ns[k];
      var i' := ChoiceMet(init, c[..k]);
      CoprimeToProduct(init, n);
      ProductPositive(init);
      i := TwoRemainders(Product(init), n, i', c[k]);
      forall j | 0 <= j < k ensures i % ns[j] == c[j] {
        assert init[j] == ns[j] && c[..k][j] == c[j];
        RemainderOfDivisor(i, Product(init), ns[j]);
      }
    }
  }

  /** It is met only once. */
  lemma {:induction false} ChoiceMetOnce(ns: seq<int>, c: seq<int>, i: int, i': int)
    requires Positive(ns) && PairwiseCoprime(ns) && |c| == |ns| && Meets(ns, c, i) && Meets(ns, c, i')
    requires 0 <= i < Product(ns) && 0 <= i' < Product(ns)
    ensures i == i'
  {
    AllDivide(ns, i - i', c, i, i');
    ProductPositive(ns);
    var n := Product(ns);
    var q := (i - i') / n;
    assert i - i' == n * q + 0;
    if i >= i' {
      QuotientUnique(i - i', n, 0, i - i');
    } else {
      QuotientUnique(i - i', n, -1, n + i - i');
    }
  }

  /** A difference of two numbers with the same remainders is a multiple of the product. */
  lemma {:induction false} AllDivide(ns: seq<int>, d: int, c: seq<int>, i: int, i': int)
    requires Positive(ns) && PairwiseCoprime(ns) && |c| == |ns| && Meets(ns, c, i) && Meets(ns, c, i') && d == i - i'
    ensures Product(ns) > 0 && d % Product(ns) == 0
  {
    ProductPositive(ns);
    if ns != [] {
      var k := |ns| - 1;
      var init, n := ns[..k], ns[k];
      assert forall j | 0 <= j < k :: init[j] == ns[j] && c[..k][j] == c[j];
      AllDivide(init, d, c[..k], i, i');
      CoprimeToProduct(init, n);
      DifferenceDivides(n, i, i');
      CoprimeDivisors(Product(init), n, d);
    }
  }

  lemma {:induction false} DifferenceDivides(n: int, i: int, i': int)
    requires n > 0 && i % n == i' % n
    ensures (i - i') % n == 0
  {
    assert i - i' == n * (i / n - i' / n) by {
      assert i == n * (i / n) + i % n && i' == n * (i' / n) + i' % n;
      assert n * (i / n - i' / n) == n * (i / n) - n * (i' / n);
    }
    MultipleHasNoRemainder(n, i / n - i' / n);
  }

  lemma {:induction false} CoprimeDivisors(a: int, b: int, d: int)
    requires a > 0 && b > 0 && Coprime(a, b) && d % a == 0 && d % b == 0
    ensures a * b > 0 && d % (a * b) == 0
  {
    var s, t := Bezout(a, b);
    var p, q := d / a, d / b;
    assert d == a * p && d == b * q;
    assert d == (a * b) * (q * s + p * t) by {
      assert d == d * (a * s + b * t);
      assert d * (a * s) == (b * q) * (a * s) == (a * b) * (q * s);
      assert d * (b * t) == (a * p) * (b * t) == (a * b) * (p * t);
    }
    ProductDivides(a, b);
    MultipleHasNoRemainder(a * b, q * s + p * t);
  }

  /** A common divisor of two moduli makes some choice impossible. */
  lemma {:induction false} CommonDivisorMisses(ns: seq<int>, j: nat, k: nat, d: int) returns (c: seq<int>)
    requires Positive(ns) && j < |ns| && k < |ns| && j != k && d > 1 && ns[j] % d == 0 && ns[k] % d == 0
    ensures IsChoice(ns, c) && forall i :: !Meets(ns, c, i)
  {
    c := seq(|ns|, x => if x == k then 1 else 0);
    forall i ensures !Meets(ns, c, i) {
      if Meets(ns, c, i) {
        assert i % ns[j] == c[j] == 0 && i % ns[k] == c[k] == 1;
        RemainderOfDivisor(i, ns[j], d);
        RemainderOfDivisor(i, ns[k], d);
        assert 0 % d == 0;
        assert 1 % d == 1 by { QuotientUnique(1, d, 0, 1); }
      }
    }
  }
}
