/** Nonnegative IEEE 754 binary64 numbers, counted in units of the smallest positive one, 2^-1074, with rounding to
    nearest, ties to even. Exponents have no upper limit: nothing computed here comes near overflow. */
module Binary64 {
  const DIGITS := 53
  const SMALLEST := 1074

  /** m times 2^k. */
  function Shift(m: nat, k: nat): nat {
    if k == 0 then m else 2 * Shift(m, k - 1)
  }

  function Pow2(k: nat): (r: nat)
    ensures r > 0
  {
    ShiftMono(0, 1, k);
    Shift(1, k)
  }

  lemma {:induction false} ShiftSum(a: nat, b: nat, k: nat)
    ensures Shift(a + b, k) == Shift(a, k) + Shift(b, k)
  {
    if k > 0 { ShiftSum(a, b, k - 1); }
  }

  lemma {:induction false} ShiftShift(m: nat, a: nat, b: nat)
    ensures Shift(m, a + b) == Shift(Shift(m, a), b)
  {
    if b > 0 { ShiftShift(m, a, b - 1); }
  }

  lemma {:induction false} ShiftMono(a: nat, b: nat, k: nat)
    ensures a <= b ==> Shift(a, k) <= Shift(b, k)
    ensures a < b ==> Shift(a, k) + Shift(1, k) <= Shift(b, k) && Shift(1, k) > 0
  {
    if k > 0 { ShiftMono(a, b, k - 1); }
  }

  lemma {:induction false} ShiftGrows(m: nat, a: nat, b: nat)
    requires a <= b
    ensures Shift(m, a) <= Shift(m, b)
  {
    if a < b { ShiftGrows(m, a, b - 1); }
  }

  predicate Scaled(n: nat, m: nat, k: nat) {
    m < Pow2(DIGITS) && n == Shift(m, k)
  }

  ghost predicate Double(n: nat) {
    exists m: nat, k: nat :: Scaled(n, m, k)
  }

  ghost predicate EvenDouble(n: nat) {
    exists m: nat, k: nat :: Scaled(n, m, k) && m % 2 == 0
  }

  /** The distance between two numbers. */
  function Off(a: nat, b: nat): nat {
    if a <= b then b - a else a - b
  }

  /** What rounding h / 2 must return: a nearest double, the even one of two equally near. */
  ghost predicate NearestEven(h: nat, n: nat) {
    && Double(n)
    && forall z: nat :: Double(z) ==>
         Off(h, 2 * n) <= Off(h, 2 * z) && (z != n && Off(h, 2 * n) == Off(h, 2 * z) ==> EvenDouble(n))
  }

  /** How many binary digits of h do not fit. */
  function Excess(h: nat): (k: nat)
    ensures k >= 1 && h < Pow2(DIGITS + k) && (k > 1 ==> h >= Pow2(DIGITS + k - 1))
  {
    if h < Pow2(DIGITS + 1) then 1 else Excess(h / 2) + 1
  }

  /** h without its last k digits. */
  function Quotient(h: nat, k: nat): (q: nat)
    ensures Shift(q, k) <= h < Shift(q, k) + Pow2(k)
  {
    if k == 0 then h else Quotient(h / 2, k - 1)
  }

  /** The kept digits after rounding, where `rest` of `unit` was cut off. */
  function RoundedDigits(q: nat, rest: nat, unit: nat): nat {
    if 2 * rest < unit || (2 * rest == unit && q % 2 == 0) then q else q + 1
  }

  function Round(h: nat): nat {
    var k := Excess(h);
    var q := Quotient(h, k);
    Shift(RoundedDigits(q, h - Shift(q, k), Pow2(k)), k - 1)
  }

  /** Among the multiples of 2^k, the rounded digits are nearest, and even on a tie. */
  lemma DigitsAreNearest(h: nat, q: nat, k: nat, c: nat)
    requires Shift(q, k) <= h < Shift(q, k) + Pow2(k)
    ensures var d := RoundedDigits(q, h - Shift(q, k), Pow2(k));
            Off(h, Shift(d, k)) <= Off(h, Shift(c, k))
            && (c != d && Off(h, Shift(d, k)) == Off(h, Shift(c, k)) ==> d % 2 == 0)
  {
    ShiftSum(q, 1, k);
    ShiftMono(c, q, k);
    ShiftMono(q + 1, c, k);
  }

  /** Every double is a multiple of the rounding unit, or lies below the leading digit of h. */
  lemma DoubleOnGrid(h: nat, z: nat) returns (c: nat)
    requires Double(z)
    ensures 2 * z == Shift(c, Excess(h)) || (Excess(h) > 1 && 2 * z < Pow2(DIGITS + Excess(h) - 1))
  {
    var k := Excess(h);
    var m: nat, j: nat :| Scaled(z, m, j);
    assert 2 * z == Shift(m, j + 1);
    if j + 1 >= k {
      c := Shift(m, j + 1 - k);
      ShiftShift(m, j + 1 - k, k);
    } else {
      c := 0;
      ShiftMono(m, Pow2(DIGITS), j + 1);
      ShiftShift(1, DIGITS, j + 1);
      ShiftGrows(1, DIGITS + j + 1, DIGITS + k - 1);
    }
  }

  /** What is kept of h: at most 53 digits, and at least the leading one if any digit is dropped. */
  lemma KeptDigitsFit(h: nat)
    ensures Quotient(h, Excess(h)) < Pow2(DIGITS)
  {
    ShiftShift(1, DIGITS, Excess(h));
    ShiftMono(Pow2(DIGITS), Quotient(h, Excess(h)), Excess(h));
  }

  lemma LeadingDigitIsKept(h: nat)
    requires Excess(h) > 1
    ensures Pow2(DIGITS + Excess(h) - 1) <= Shift(Quotient(h, Excess(h)), Excess(h))
  {
    var k := Excess(h);
    var q := Quotient(h, k);
    ShiftShift(1, DIGITS - 1, k);
    ShiftSum(q, 1, k);
    ShiftMono(q + 1, Pow2(DIGITS - 1), k);
    ShiftMono(Pow2(DIGITS - 1), q, k);
  }

  lemma {:induction false} TwoShifted(k: nat)
    ensures Shift(2, k) == Shift(1, k + 1)
  {
    if k > 0 { TwoShifted(k - 1); }
  }

  lemma AllDigitsCarry(j: nat)
    ensures Shift(Pow2(DIGITS), j) == Shift(2, DIGITS - 1 + j)
  {
    ShiftShift(1, DIGITS, j);
    TwoShifted(DIGITS - 1 + j);
  }

  /** At most 2^53 units are a double; an even number of them an even one. */
  lemma DigitsAreDouble(d: nat, j: nat)
    requires d <= Pow2(DIGITS)
    ensures Double(Shift(d, j))
    ensures d % 2 == 0 ==> EvenDouble(Shift(d, j))
  {
    if d < Pow2(DIGITS) {
      assert Scaled(Shift(d, j), d, j);
    } else {
      AllDigitsCarry(j);
      assert Scaled(Shift(d, j), 2, DIGITS - 1 + j);
    }
  }

  /** How Round builds its result. */
  lemma RoundIs(h: nat) returns (q: nat, d: nat)
    ensures q == Quotient(h, Excess(h)) && d == RoundedDigits(q, h - Shift(q, Excess(h)), Pow2(Excess(h)))
    ensures 2 * Round(h) == Shift(d, Excess(h)) && Double(Round(h)) && (d % 2 == 0 ==> EvenDouble(Round(h)))
  {
    q := Quotient(h, Excess(h));
    d := RoundedDigits(q, h - Shift(q, Excess(h)), Pow2(Excess(h)));
    KeptDigitsFit(h);
    DigitsAreDouble(d, Excess(h) - 1);
  }

  lemma RoundBeats(h: nat, z: nat)
    requires Double(z)
    ensures Off(h, 2 * Round(h)) <= Off(h, 2 * z)
    ensures z != Round(h) && Off(h, 2 * Round(h)) == Off(h, 2 * z) ==> EvenDouble(Round(h))
  {
    var q, d := RoundIs(h);
    var c := DoubleOnGrid(h, z);
    if 2 * z == Shift(c, Excess(h)) {
      DigitsAreNearest(h, q, Excess(h), c);
    } else {
      LeadingDigitIsKept(h);
      DigitsAreNearest(h, q, Excess(h), q);
    }
  }

  /** Round rounds h / 2 as the standard asks. */
  lemma RoundIsNearestEven(h: nat)
    ensures NearestEven(h, Round(h))
  {
    var _, _ := RoundIs(h);
    forall z: nat | Double(z)
      ensures Off(h, 2 * Round(h)) <= Off(h, 2 * z)
      ensures z != Round(h) && Off(h, 2 * Round(h)) == Off(h, 2 * z) ==> EvenDouble(Round(h))
    {
      RoundBeats(h, z);
    }
  }

  /** Rounding does not cross a double, so it is exact on doubles and monotone past them. */
  lemma RoundStaysWithin(h: nat, z: nat)
    requires Double(z)
    ensures h <= 2 * z ==> Round(h) <= z
    ensures h >= 2 * z ==> Round(h) >= z
  {
    RoundBeats(h, z);
  }

  // ----- the two computations of the playlist -----

  /** The gap 1024 in units. */
  const GAP_BITS := SMALLEST + 10

  /** 2^63 in units. */
  const LIMIT_BITS := SMALLEST + 63

  lemma PowersAreDoubles(j: nat)
    ensures Double(Pow2(j)) && Double(0)
  {
    assert Scaled(Pow2(j), 1, j);
    assert Scaled(0, 0, 0);
  }

  /** Halving a positive double always lowers it; it is exact where the half is a double; and halving never skips a
      power of two. The half of the smallest double is zero. */
  lemma Halving(n: nat, j: nat)
    requires Double(n) && n > 0
    ensures Double(Round(n)) && Round(n) < n
    ensures n >= Pow2(j + 1) ==> Round(n) >= Pow2(j)
    ensures n == Pow2(j + 1) ==> Round(n) == Pow2(j)
  {
    RoundIsNearestEven(n);
    PowersAreDoubles(j);
    RoundStaysWithin(n, Pow2(j));
    HalvingLowers(n);
  }

  lemma HalvingLowers(n: nat)
    requires Double(n) && n > 0
    ensures Round(n) < n
  {
    if n == 1 {
      HalfOfSmallest(n);
    } else {
      var z := DoubleAboveHalf(n);
      RoundStaysWithin(n, z);
    }
  }

  lemma DoubleAboveHalf(n: nat) returns (z: nat)
    requires Double(n) && n > 1
    ensures Double(z) && z < n <= 2 * z
  {
    var m: nat, k: nat :| Scaled(n, m, k);
    if k > 0 {
      z := Shift(m, k - 1);
      assert Scaled(z, m, k - 1);
    } else {
      z := n - 1;
      assert Scaled(z, z, 0);
    }
  }

  lemma HalfOfSmallest(u: nat)
    requires u <= 1
    ensures Round(u) == 0
  {
    assert Pow2(1) == 2 && Shift(0, 1) == 0;
    assert Excess(u) == 1 && Quotient(u, 1) == 0;
    assert RoundedDigits(0, u, 2) == 0;
  }

  /** Below 2^63 a double has a neighbour above it at most the gap away. */
  lemma NeighbourWithinGap(n: nat) returns (z: nat)
    requires Double(n) && n < Pow2(LIMIT_BITS)
    ensures Double(z) && n < z <= n + Pow2(GAP_BITS)
  {
    var m: nat, k: nat :| Scaled(n, m, k);
    if k <= GAP_BITS {
      z := Shift(m + 1, k);
      ShiftSum(m, 1, k);
      DigitsAreDouble(m + 1, k);
      ShiftGrows(1, k, GAP_BITS);
      ShiftMono(0, 1, k);
      assert z == n + Shift(1, k);
    } else {
      // the same number in units of the gap
      var d := Shift(m, k - GAP_BITS);
      ShiftShift(m, k - GAP_BITS, GAP_BITS);
      assert k == (k - GAP_BITS) + GAP_BITS && n == Shift(d, GAP_BITS);
      ShiftShift(1, DIGITS, GAP_BITS);
      ShiftMono(Pow2(DIGITS), d, GAP_BITS);
      z := Shift(d + 1, GAP_BITS);
      ShiftSum(d, 1, GAP_BITS);
      assert z == n + Pow2(GAP_BITS);
      assert n < z;
      DigitsAreDouble(d + 1, GAP_BITS);
    }
  }

  /** Adding the gap to a double below 2^63 always raises it, and not past a double the sum does not pass. */
  lemma AddingGap(n: nat, bound: nat)
    requires Double(n) && n < Pow2(LIMIT_BITS)
    requires Double(bound) && n + Pow2(GAP_BITS) <= bound
    ensures var r := Round(2 * (n + Pow2(GAP_BITS)));
            Double(r) && n < r <= bound
  {
    var h := 2 * (n + Pow2(GAP_BITS));
    RoundIsNearestEven(h);
    var z := NeighbourWithinGap(n);
    RoundStaysWithin(h, z);
    RoundStaysWithin(h, bound);
  }

  /** At 2^63 the gap is lost: halfway to the next double, rounding goes back to the even one. */
  lemma GapIsLostAtLimit()
    ensures Round(2 * (Pow2(LIMIT_BITS) + Pow2(GAP_BITS))) == Pow2(LIMIT_BITS)
  {
    var h := 2 * (Pow2(LIMIT_BITS) + Pow2(GAP_BITS));
    var k := GAP_BITS + 2;
    var q := Pow2(DIGITS - 1);
    ShiftShift(1, DIGITS - 1, k);
    ShiftShift(1, DIGITS - 1, k - 1);
    assert h == Shift(q, k) + Pow2(k - 1) && Pow2(k) == 2 * Pow2(k - 1);
    ShiftGrows(1, GAP_BITS + 1, LIMIT_BITS + 1);
    assert LIMIT_BITS + 1 == DIGITS + k - 1 && Pow2(DIGITS + k) == 2 * Pow2(LIMIT_BITS + 1);
    assert Pow2(LIMIT_BITS + 1) == 2 * Pow2(LIMIT_BITS) && Pow2(GAP_BITS + 1) == 2 * Pow2(GAP_BITS);
    assert Pow2(GAP_BITS) < Pow2(LIMIT_BITS) by { ShiftGrows(1, GAP_BITS, LIMIT_BITS - 1); }
    ExcessIs(h, k);
    QuotientIs(h, k, q);
    assert q == 2 * Pow2(DIGITS - 2);
  }

  lemma QuotientIs(h: nat, k: nat, q: nat)
    requires Shift(q, k) <= h < Shift(q, k) + Pow2(k)
    ensures Quotient(h, k) == q
  {
    ShiftMono(q, Quotient(h, k), k);
    ShiftMono(Quotient(h, k), q, k);
  }

  lemma ExcessIs(h: nat, k: nat)
    requires k > 1 && Pow2(DIGITS + k - 1) <= h < Pow2(DIGITS + k)
    ensures Excess(h) == k
  {
    var e := Excess(h);
    if e < k { ShiftGrows(1, DIGITS + e, DIGITS + k - 1); }
    if k < e { ShiftGrows(1, DIGITS + k, DIGITS + e - 1); }
  }

  // ----- as real numbers -----

  function ToReal(n: nat): real {
    n as real / Pow2(SMALLEST) as real
  }

  /** Rounding, on nonnegative multiples of half the smallest double: the only numbers that arise here. */
  function Fl(x: real): real {
    if InHalfUnits(x) >= 0 then ToReal(Round(InHalfUnits(x))) else 0.0
  }

  function InHalfUnits(x: real): int {
    (x * (2.0 * Pow2(SMALLEST) as real)).Floor
  }

  lemma HalfUnitsOfHalf(n: nat)
    ensures InHalfUnits(ToReal(n) / 2.0) == n
  {
    Cancel(n as real, Pow2(SMALLEST) as real);
  }

  lemma HalfUnitsOfSum(n: nat, m: nat)
    ensures InHalfUnits(ToReal(n) + ToReal(m)) == 2 * (n + m)
  {
    var p := Pow2(SMALLEST) as real;
    Cancel(n as real, p);
    Cancel(m as real, p);
    Distribute(ToReal(n), ToReal(m), 2.0 * p);
  }

  lemma Cancel(a: real, p: real)
    requires p > 0.0
    ensures (a / p) / 2.0 * (2.0 * p) == a && (a / p) * (2.0 * p) == 2.0 * a && (a / p) * p == a
  {
  }

  lemma RealOrder(a: nat, b: nat)
    ensures a < b <==> ToReal(a) < ToReal(b)
    ensures a == b <==> ToReal(a) == ToReal(b)
    ensures ToReal(a) >= 0.0
  {
    var p := Pow2(SMALLEST) as real;
    Cancel(a as real, p);
    Cancel(b as real, p);
    Scale(ToReal(a), ToReal(b), p);
    Scale(0.0, ToReal(a), p);
  }

  lemma Scale(x: real, y: real, p: real)
    requires p > 0.0
    ensures x < y <==> x * p < y * p
  {
    assert (y - x) * p == y * p - x * p;
  }

  lemma FlHalf(n: nat)
    ensures ToReal(n) >= 0.0 && Fl(ToReal(n) / 2.0) == ToReal(Round(n))
  {
    RealOrder(n, n);
    HalfUnitsOfHalf(n);
  }

  lemma GapInUnits()
    ensures Pow2(GAP_BITS) == 1024 * Pow2(SMALLEST)
  {
    ShiftShift(1, SMALLEST, 10);
    ShiftIsProduct(Pow2(SMALLEST), 10);
    assert Shift(1, 10) == 1024;
  }

  lemma {:induction false} ShiftIsProduct(p: nat, k: nat)
    ensures Shift(p, k) == Shift(1, k) * p
  {
    if k > 0 { ShiftIsProduct(p, k - 1); }
  }

  lemma GapIs1024()
    ensures ToReal(Pow2(GAP_BITS)) == 1024.0
  {
    GapInUnits();
    Ratio(Pow2(SMALLEST) as real);
  }

  lemma Ratio(p: real)
    requires p > 0.0
    ensures 1024.0 * p / p == 1024.0
  {
  }

  lemma FlGap(n: nat)
    ensures ToReal(n) >= 0.0 && Fl(ToReal(n) + 1024.0) == ToReal(Round(2 * (n + Pow2(GAP_BITS))))
  {
    RealOrder(n, n);
    GapIs1024();
    HalfUnitsOfSum(n, Pow2(GAP_BITS));
  }

  lemma Distribute(x: real, y: real, p: real)
    ensures (x + y) * p == x * p + y * p
  {
  }
}
