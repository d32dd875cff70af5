/** Integer facts the generator relies on: Euclid's gcd (the `math.gcd` that
    sizes the juggling rotation), the lcm that `parse_file` folds over the
    duration denominators, and the modular arithmetic behind both. */
module NumberTheory {

  /** d divides n, for a positive d. */
  predicate Divides(d: int, n: int)
  {
    d > 0 && n % d == 0
  }

  /** Euclid's algorithm, with gcd(a, 0) == a, as `math.gcd` on naturals. */
  function Gcd(a: nat, b: nat): (g: nat)
    ensures a > 0 || b > 0 ==> g > 0
    decreases b
  {
    if b == 0 then a else Gcd(b, a % b)
  }

  /** numpy's `lcm` on naturals: 0 when either argument is 0. */
  function Lcm(a: nat, b: nat): nat
  {
    if a == 0 || b == 0 then 0 else (a / Gcd(a, b)) * b
  }

  function Abs(n: int): nat
  {
    if n < 0 then -n else n
  }

  /** `int(a / b)`: the quotient rounded toward zero. */
  function TruncDiv(a: int, b: int): int
    requires b != 0
  {
    if (a >= 0) == (b > 0) then Abs(a) / Abs(b) else -(Abs(a) / Abs(b))
  }

  /** Python's `a // b`: the quotient rounded toward minus infinity. */
  function FloorDiv(a: int, b: int): int
    requires b != 0
  {
    if b > 0 then a / b else (-a) / (-b)
  }

  /** Python's `a % b`: the remainder takes the sign of b. */
  function FloorMod(a: int, b: int): (r: int)
    requires b != 0
    ensures b * FloorDiv(a, b) + r == a
    ensures b > 0 ==> 0 <= r < b
    ensures b < 0 ==> b < r <= 0
  {
    a - b * FloorDiv(a, b)
  }

  /** When b divides a, rounding toward zero loses nothing. */
  lemma TruncDivExact(a: nat, b: int)
    requires b != 0 && a % Abs(b) == 0
    ensures TruncDiv(a, b) * b == a
  {
    var d := Abs(b);
    var q := a / d;
    assert a == q * d;
    if b < 0 {
      assert TruncDiv(a, b) == -q;
      assert (-q) * b == q * d;
    }
  }

  lemma MulAssoc(a: int, b: int, c: int)
    ensures (a * b) * c == a * (b * c)
  {
  }

  /** Euclidean division is unique: any decomposition n == q*d + r with
      0 <= r < d is the one `/` and `%` compute. */
  lemma DivModUnique(n: int, d: int, q: int, r: int)
    requires d > 0 && 0 <= r < d && n == q * d + r
    ensures n / d == q && n % d == r
  {
    var q', r' := n / d, n % d;
    assert n == q' * d + r';
    if q' < q {
      ProductAtLeast(q - q', d);
      assert false;
    } else if q' > q {
      ProductAtLeast(q' - q, d);
      assert false;
    }
  }

  lemma ProductAtLeast(e: int, d: int)
    requires e >= 1 && d > 0
    ensures e * d >= d
  {
    assert e * d == d + (e - 1) * d;
  }

  /** Multiplying by a non-negative number keeps the order. */
  lemma MulMonotone(a: int, b: int, c: int)
    requires a <= b && c >= 0
    ensures a * c <= b * c
  {
    assert b * c - a * c == (b - a) * c;
  }

  lemma MultipleMod(d: int, k: int)
    requires d > 0
    ensures (d * k) % d == 0 && (k * d) % d == 0
  {
    DivModUnique(d * k, d, k, 0);
  }

  /** Adding a multiple of h does not change a residue already below h. */
  lemma ModAddMultiple(p: int, h: int, k: int)
    requires 0 <= p < h
    ensures (p + h * k) % h == p
  {
    DivModUnique(p + h * k, h, k, p);
  }

  /** Reducing first and reducing afterwards agree. */
  lemma ModAddReduce(a: int, s: int, h: int)
    requires h > 0
    ensures ((a % h) + s) % h == (a + s) % h
  {
    var q := a / h;
    assert a == q * h + a % h;
    var m := ((a % h) + s) % h;
    var q2 := ((a % h) + s) / h;
    assert (a % h) + s == q2 * h + m;
    assert a + s == (q + q2) * h + m;
    DivModUnique(a + s, h, q + q2, m);
  }

  /** A linear combination of multiples of d is a multiple of d. */
  lemma DividesCombination(d: int, m: int, n: int, x: int, y: int)
    requires Divides(d, m) && Divides(d, n)
    ensures Divides(d, x * m + y * n)
  {
    var a, b := m / d, n / d;
    assert m == a * d;
    assert n == b * d;
    assert x * m + y * n == (x * a + y * b) * d;
    MultipleMod(d, x * a + y * b);
  }

  lemma DividesTransitive(d: int, m: int, n: int)
    requires Divides(d, m) && Divides(m, n)
    ensures Divides(d, n)
  {
    var a, b := m / d, n / m;
    assert m == a * d;
    assert n == b * m;
    assert n == (b * a) * d;
    MultipleMod(d, b * a);
  }

  /** The gcd is a positive common divisor. */
  lemma {:induction false} GcdDivides(a: nat, b: nat)
    requires a > 0 || b > 0
    ensures Divides(Gcd(a, b), a) && Divides(Gcd(a, b), b)
    decreases b
  {
    if b == 0 {
      MultipleMod(a, 1);
      MultipleMod(a, 0);
    } else {
      GcdDivides(b, a % b);
      var g := Gcd(a, b);
      assert a == (a / b) * b + (a % b);
      DividesCombination(g, b, a % b, a / b, 1);
    }
  }

  /** Bezout's identity: the gcd is an integer combination of its arguments. */
  lemma {:induction false} Bezout(a: nat, b: nat) returns (x: int, y: int)
    ensures x * a + y * b == Gcd(a, b)
    decreases b
  {
    if b == 0 {
      x, y := 1, 0;
    } else {
      var x', y' := Bezout(b, a % b);
      var q := a / b;
      assert a % b == a - q * b;
      assert x' * b + y' * (a - q * b) == Gcd(a, b);
      x, y := y', x' - y' * q;
      assert x * a + y * b == y' * a + x' * b - y' * q * b;
    }
  }

  /** The lcm of two positive numbers is a positive common multiple. */
  lemma LcmIsCommonMultiple(a: nat, b: nat)
    requires a > 0 && b > 0
    ensures Lcm(a, b) > 0 && Divides(a, Lcm(a, b)) && Divides(b, Lcm(a, b))
  {
    GcdDivides(a, b);
    var g := Gcd(a, b);
    var p, q := a / g, b / g;
    assert a == p * g;
    assert b == q * g;
    assert p > 0;
    assert Lcm(a, b) == p * b;
    MultipleMod(b, p);
    assert p * b == a * q;
    MultipleMod(a, q);
  }

  /** Adding any multiple of h leaves the residue unchanged. */
  lemma ModShift(a: int, k: int, h: int)
    requires h > 0
    ensures (a + k * h) % h == a % h
  {
    var q := a / h;
    assert a == q * h + a % h;
    assert a + k * h == (q + k) * h + a % h;
    DivModUnique(a + k * h, h, q + k, a % h);
  }

  /** A value below 2h is reduced by at most one subtraction of h. */
  lemma ModSmall(v: int, h: int)
    requires h > 0 && 0 <= v < 2 * h
    ensures v % h == if v < h then v else v - h
  {
    if v < h {
      DivModUnique(v, h, 0, v);
    } else {
      DivModUnique(v, h, 1, v - h);
    }
  }

  /** A positive divisor of a positive number is at most that number. */
  lemma DivisorAtMost(d: int, n: int)
    requires Divides(d, n) && n > 0
    ensures d <= n
  {
    var q := n / d;
    assert n == q * d;
    ProductAtLeast(q, d);
  }

  /** Residues modulo a divisor g of h survive reduction modulo h. */
  lemma ModModDivisor(q: int, h: int, g: int)
    requires h > 0 && Divides(g, h)
    ensures (q % h) % g == q % g
  {
    var r := h / g;
    assert h == r * g;
    assert q == (q / h) * h + q % h;
    assert q == q % h + ((q / h) * r) * g;
    ModShift(q % h, (q / h) * r, g);
  }

  /** One juggling step as `cycle_area_down` takes it: advance by t and
      subtract h once if that passes the end. */
  function Step(p: int, t: int, h: int): (q: int)
    ensures 0 <= p < h && 0 <= t <= h ==> 0 <= q < h
  {
    if p + t >= h then p + t - h else p + t
  }

  /** For 0 <= t <= h the single subtraction is a full reduction modulo h. */
  lemma StepMod(p: int, t: int, h: int)
    requires 0 <= p < h && 0 <= t <= h
    ensures Step(p, t, h) == (p + t) % h
  {
    ModSmall(p + t, h);
  }

  /** The n-th position of the juggling orbit that starts at i and advances
      by t around a cycle of length h. */
  function Orbit(i: int, t: int, h: int, n: nat): (r: int)
    requires 0 <= i < h && 0 <= t <= h
    ensures 0 <= r < h
  {
    if n == 0 then i else Step(Orbit(i, t, h, n - 1), t, h)
  }

  /** Distinct positions take distinct steps. */
  lemma StepInjective(p: int, q: int, t: int, h: int)
    requires 0 <= p < h && 0 <= q < h && 0 <= t <= h
    ensures p != q ==> Step(p, t, h) != Step(q, t, h)
  {
  }

  /** A step keeps a position in its residue class modulo any common
      divisor g of t and h. */
  lemma StepClass(q: int, t: int, h: int, g: int)
    requires Divides(g, t) && Divides(g, h) && 0 <= q < h && 0 <= t <= h
    ensures Step(q, t, h) % g == q % g
  {
    var c, d := t / g, h / g;
    assert t == c * g && h == d * g;
    if q + t >= h {
      assert Step(q, t, h) == q + (c - d) * g;
      ModShift(q, c - d, g);
    } else {
      ModShift(q, c, g);
    }
  }

  /** An orbit that has not come back to its start within b steps visits
      no position twice within those steps. */
  lemma {:induction false} OrbitDistinct(i: int, t: int, h: int, a: nat, b: nat)
    requires 0 <= i < h && 0 <= t <= h && a < b
    requires forall n | 1 <= n <= b :: Orbit(i, t, h, n) != i
    ensures Orbit(i, t, h, a) != Orbit(i, t, h, b)
  {
    if a > 0 {
      OrbitDistinct(i, t, h, a - 1, b - 1);
      StepInjective(Orbit(i, t, h, a - 1), Orbit(i, t, h, b - 1), t, h);
    }
  }

  lemma MulPred(n: int, t: int)
    ensures n * t == (n - 1) * t + t
  {
  }

  /** A step from the residue of a lands on the residue of a + t. */
  lemma StepReduce(p: int, a: int, b: int, t: int, h: int)
    requires 0 <= p < h && 0 <= t <= h && p == a % h && b == a + t
    ensures Step(p, t, h) == b % h
  {
    StepMod(p, t, h);
    ModAddReduce(a, t, h);
  }

  /** After n steps the orbit is n * t past its start, modulo h. */
  lemma {:induction false} OrbitClosedForm(i: int, t: int, h: int, n: nat)
    requires 0 <= i < h && 0 <= t <= h
    ensures Orbit(i, t, h, n) == (i + n * t) % h
  {
    if n == 0 {
      DivModUnique(i, h, 0, i);
    } else {
      var a, b := i + (n - 1) * t, i + n * t;
      OrbitClosedForm(i, t, h, n - 1);
      MulPred(n, t);
      StepReduce(Orbit(i, t, h, n - 1), a, b, t, h);
    }
  }

  /** i + n * t stays in i's residue class modulo a common divisor g of t
      and h after reduction modulo h. */
  lemma ShiftClass(i: int, t: nat, h: nat, n: nat, g: int)
    requires Divides(g, t) && Divides(g, h) && 0 <= i < g && h > 0
    ensures ((i + n * t) % h) % g == i
  {
    var c := t / g;
    assert t == g * c;
    assert n * t == g * (n * c);
    ModAddMultiple(i, g, n * c);
    ModModDivisor(i + n * t, h, g);
  }

  /** Every orbit position lies in the residue class of i modulo the gcd. */
  lemma OrbitClass(i: int, t: nat, h: nat, n: nat)
    requires 0 <= i < h && t <= h && i < Gcd(t, h)
    ensures Orbit(i, t, h, n) % Gcd(t, h) == i
  {
    OrbitClosedForm(i, t, h, n);
    GcdDivides(t, h);
    ShiftClass(i, t, h, n, Gcd(t, h));
  }

  /** h / g steps of t add a multiple of h when g divides both. */
  lemma ReturnShift(i: int, t: nat, h: nat, g: int)
    requires Divides(g, t) && Divides(g, h) && 0 <= i < h
    ensures (i + (h / g) * t) % h == i
  {
    var r, c := h / g, t / g;
    assert h == r * g && t == c * g;
    assert r * t == c * h by {
      assert r * t == r * (c * g) == c * (r * g);
    }
    ModShift(i, c, h);
    DivModUnique(i, h, 0, i);
  }

  /** The orbit is back at its start after h / gcd(t, h) steps. */
  lemma OrbitReturn(i: int, t: nat, h: nat)
    requires 0 <= i < h && t <= h
    ensures h / Gcd(t, h) >= 1 && Orbit(i, t, h, h / Gcd(t, h)) == i
  {
    GcdDivides(t, h);
    DivisorAtMost(Gcd(t, h), h);
    assert h == (h / Gcd(t, h)) * Gcd(t, h);
    ReturnShift(i, t, h, Gcd(t, h));
    OrbitClosedForm(i, t, h, h / Gcd(t, h));
  }

  /** Searching upwards from n for the orbit's first return to i, knowing
      it is back at step M. */
  lemma {:induction false} FirstReturnFrom(i: int, t: int, h: int, n: nat, M: nat) returns (L: nat)
    requires 0 <= i < h && 0 <= t <= h && 1 <= n <= M && Orbit(i, t, h, M) == i
    requires forall k | 1 <= k < n :: Orbit(i, t, h, k) != i
    ensures n <= L <= M && Orbit(i, t, h, L) == i
    ensures forall k | 1 <= k < L :: Orbit(i, t, h, k) != i
    decreases M - n
  {
    if Orbit(i, t, h, n) == i {
      L := n;
    } else {
      L := FirstReturnFrom(i, t, h, n + 1, M);
    }
  }

  /** The orbit's first return to its start: the length of the juggling
      cycle, at most h / gcd(t, h). */
  lemma FirstReturn(i: int, t: nat, h: nat) returns (L: nat)
    requires 0 <= i < h && t <= h
    ensures 1 <= L && Orbit(i, t, h, L) == i
    ensures forall k | 1 <= k < L :: Orbit(i, t, h, k) != i
  {
    OrbitReturn(i, t, h);
    L := FirstReturnFrom(i, t, h, 1, h / Gcd(t, h));
  }

  /** With x * t + y * h == g, (p / g) * x steps of t from i land on any p
      of i's residue class modulo g, up to a multiple of h. */
  lemma CombinationReach(i: int, t: int, h: int, p: int, g: int, x: int, y: int)
    requires x * t + y * h == g && g > 0 && 0 <= i < g && h > 0
    requires 0 <= p < h && p % g == i
    ensures (i + ((p / g) * x) * t) % h == p
  {
    var c := p / g;
    assert p == c * g + i;
    assert i + (c * x) * t == p + (-(c * y)) * h by {
      assert c * (x * t) == c * (g - y * h);
      assert (c * x) * t == c * (x * t);
    }
    ModShift(p, -(c * y), h);
    DivModUnique(p, h, 0, p);
  }

  /** Bezout's identity reaches every member of i's residue class: some
      (possibly negative) number of t-steps from i lands on p modulo h. */
  lemma BezoutReach(i: int, t: nat, h: nat, p: int) returns (n0: int)
    requires h > 0 && 0 <= i < Gcd(t, h)
    requires 0 <= p < h && p % Gcd(t, h) == i
    ensures (i + n0 * t) % h == p
  {
    var x, y := Bezout(t, h);
    CombinationReach(i, t, h, p, Gcd(t, h), x, y);
    n0 := (p / Gcd(t, h)) * x;
  }

  /** If L steps of t bring i back to itself modulo h, a step count
      matters only modulo L. */
  lemma ShiftPeriod(i: int, t: int, h: int, L: nat, n0: int)
    requires 0 <= i < h && L >= 1
    requires (i + L * t) % h == i
    ensures (i + (n0 % L) * t) % h == (i + n0 * t) % h
  {
    var r := (i + L * t) / h;
    assert i + L * t == r * h + i;
    var n, q := n0 % L, n0 / L;
    assert n0 == q * L + n;
    assert i + n * t == (i + n0 * t) + (-(q * r)) * h by {
      assert n * t == n0 * t - q * (L * t);
      assert q * (L * t) == q * (r * h);
    }
    ModShift(i + n0 * t, -(q * r), h);
  }

  /** An orbit that is back at i after L steps has already visited every
      position of i's residue class modulo gcd(t, h) within those L steps. */
  lemma OrbitCovers(i: int, t: nat, h: nat, L: nat, p: int) returns (n: nat)
    requires 0 <= i < h && t <= h && i < Gcd(t, h) && L >= 1
    requires Orbit(i, t, h, L) == i
    requires 0 <= p < h && p % Gcd(t, h) == i
    ensures n < L && Orbit(i, t, h, n) == p
  {
    var n0 := BezoutReach(i, t, h, p);
    OrbitClosedForm(i, t, h, L);
    ShiftPeriod(i, t, h, L, n0);
    n := n0 % L;
    OrbitClosedForm(i, t, h, n);
  }

  /** The first m positions of the orbit from i. */
  ghost function Visits(i: int, t: int, h: int, m: nat): set<int>
    requires 0 <= i < h && 0 <= t <= h
  {
    if m == 0 then {} else Visits(i, t, h, m - 1) + {Orbit(i, t, h, m - 1)}
  }

  /** Every one of the first m positions is visited within m steps. */
  lemma {:induction false} OrbitVisited(i: int, t: int, h: int, m: nat, n: nat)
    requires 0 <= i < h && 0 <= t <= h && n < m
    ensures Orbit(i, t, h, n) in Visits(i, t, h, m)
  {
    if n != m - 1 {
      OrbitVisited(i, t, h, m - 1, n);
    }
  }

  /** An orbit that has not returned to i within b steps has not visited
      its b-th position before. */
  lemma {:induction false} NotYetVisited(i: int, t: int, h: int, m: nat, b: nat)
    requires 0 <= i < h && 0 <= t <= h && m <= b
    requires forall n | 1 <= n <= b :: Orbit(i, t, h, n) != i
    ensures Orbit(i, t, h, b) !in Visits(i, t, h, m)
  {
    if m > 0 {
      NotYetVisited(i, t, h, m - 1, b);
      OrbitDistinct(i, t, h, m - 1, b);
    }
  }

  /** Visited positions lie in the residue class of i modulo gcd(t, h). */
  lemma {:induction false} VisitedInClass(i: int, t: nat, h: nat, m: nat, q: int)
    requires 0 <= i < h && t <= h && i < Gcd(t, h)
    ensures q in Visits(i, t, h, m) ==> q % Gcd(t, h) == i
  {
    if m > 0 {
      VisitedInClass(i, t, h, m - 1, q);
      OrbitClass(i, t, h, m - 1);
    }
  }

  /** An orbit back at i after M steps has visited all of i's residue class
      within those steps. */
  lemma ClassVisited(i: int, t: nat, h: nat, M: nat, q: int)
    requires 0 <= i < h && t <= h && i < Gcd(t, h) && M >= 1
    requires Orbit(i, t, h, M) == i
    requires 0 <= q < h && q % Gcd(t, h) == i
    ensures q in Visits(i, t, h, M)
  {
    var n := OrbitCovers(i, t, h, M, q);
    OrbitVisited(i, t, h, M, n);
  }

  /** Within one orbit, the positions visited in M steps are exactly i's
      residue class modulo gcd(t, h). */
  lemma VisitsIsClass(i: int, t: nat, h: nat, M: nat)
    requires 0 <= i < h && t <= h && i < Gcd(t, h) && M >= 1
    requires Orbit(i, t, h, M) == i
    ensures forall q | 0 <= q < h :: q in Visits(i, t, h, M) <==> q % Gcd(t, h) == i
  {
    forall q | 0 <= q < h
      ensures q in Visits(i, t, h, M) <==> q % Gcd(t, h) == i
    {
      VisitedInClass(i, t, h, M, q);
      if q % Gcd(t, h) == i {
        ClassVisited(i, t, h, M, q);
      }
    }
  }
}
