/**
 The fractional PLL solver of the DSI host: pre-divider p, post-divider shift s,
 and a multiplier m + k / 2^kBits with a signed fraction k.

 Integers are unbounded, so the clocks are taken to be in the range where the
 driver's 64-bit shifts do not overflow.
 */
module DsiPll {

  datatype Features = Features(
    finput: nat, foptimum: nat,
    foutMin: nat, foutMax: nat,
    fvcoMin: nat, fvcoMax: nat,
    pMin: nat, pMax: nat,
    mMin: nat, mMax: nat,
    sMin: nat, sMax: nat,
    kBits: nat)

  datatype Pms = Pms(p: nat, m: nat, s: nat, k: nat)

  datatype Error = POutOfRange | ClockOutOfRange | NoProperS | SOutOfRange | MOutOfRange

  datatype Result = Ok(pms: Pms) | Err(error: Error)

  const U32_MAX: nat := 0xffff_ffff

  function Pow2(n: nat): (r: nat)
    ensures r >= 1
  {
    if n == 0 then 1 else 2 * Pow2(n - 1)
  }

  // ---------------------------------------------------------------------
  // Pre-divider
  // ---------------------------------------------------------------------

  function DivRoundClosest(x: nat, d: nat): nat
    requires d > 0
  {
    (x + d / 2) / d
  }

  function PreDivider(f: Features): (p: nat)
    requires f.foptimum > 0
    ensures p >= 1
  {
    var p := DivRoundClosest(f.finput, f.foptimum);
    if p == 0 then 1 else p
  }

  lemma RoundClosestBounds(x: nat, d: nat)
    requires d > 0
    ensures var r := DivRoundClosest(x, d);
            2 * (r * d) <= 2 * x + d && 2 * x < 2 * (r * d) + d + d % 2
  {
    DivBounds(x + d / 2, d);
  }

  lemma RoundClosestAtMost(x: nat, d: nat)
    requires d > 0 && x > 0
    ensures DivRoundClosest(x, d) <= x
  {
    DivBounds(x + d / 2, d);
    MulGrows(1, d, x);
    SmallerFactor(DivRoundClosest(x, d), x, d);
  }

  /** The pre-divider comes nearest to the optimum, and the divided input clock never vanishes. */
  lemma PreDividerIsNearest(f: Features)
    requires f.finput > 0 && f.foptimum > 0
    ensures var p := PreDivider(f);
            && p <= f.finput && f.finput / p >= 1
            && (p > 1 ==> 2 * (p * f.foptimum) <= 2 * f.finput + f.foptimum)
            && 2 * f.finput < 2 * (p * f.foptimum) + f.foptimum + f.foptimum % 2
  {
    RoundClosestBounds(f.finput, f.foptimum);
    RoundClosestAtMost(f.finput, f.foptimum);
    QuotientPositive(f.finput, PreDivider(f));
  }

  lemma DivBounds(a: nat, d: nat)
    requires d > 0
    ensures a / d * d <= a < a / d * d + d
    ensures a % d == a - a / d * d
  {
  }

  lemma SmallerFactor(a: nat, b: nat, d: nat)
    requires a * d < b * d + d
    ensures a <= b
  {
    if a > b {
      assert (b + 1) * d == b * d + d;
      MulGrows(b + 1, a, d);
    }
  }

  lemma QuotientIs(a: nat, d: nat, r: nat)
    requires d > 0 && r * d <= a < r * d + d
    ensures a / d == r
  {
    DivBounds(a, d);
    SmallerFactor(a / d, r, d);
    SmallerFactor(r, a / d, d);
  }

  lemma QuotientPositive(a: nat, d: nat)
    requires 0 < d <= a
    ensures a / d >= 1
  {
    if a / d == 0 {
      DivBounds(a, d);
    }
  }

  lemma MulGrows(a: nat, b: nat, c: nat)
    requires a <= b
    ensures a * c <= b * c
  {
  }

  // ---------------------------------------------------------------------
  // Shift
  // ---------------------------------------------------------------------

  /** How often `f` has to be doubled to reach `low`. */
  function Doublings(f: nat, low: nat): nat
    requires f > 0
    decreases low - f
  {
    if f >= low then 0 else 1 + Doublings(2 * f, low)
  }

  lemma PowStep(f: nat, n: nat)
    ensures f * Pow2(n + 1) == (2 * f) * Pow2(n) == 2 * (f * Pow2(n))
  {
    assert Pow2(n + 1) == 2 * Pow2(n);
  }

  lemma {:induction false} DoublingsAreLeast(f: nat, low: nat)
    requires f > 0
    ensures low <= f * Pow2(Doublings(f, low))
    ensures forall t: nat :: t < Doublings(f, low) ==> f * Pow2(t) < low
    decreases low - f
  {
    if f < low {
      DoublingsAreLeast(2 * f, low);
      var n := Doublings(2 * f, low);
      PowStep(f, n);
      forall t: nat | t < n + 1 ensures f * Pow2(t) < low {
        if t > 0 {
          PowStep(f, t - 1);
        } else {
          assert f * Pow2(0) == f;
        }
      }
    }
  }

  lemma {:induction false} PowGrows(f: nat, s: nat, t: nat)
    requires s <= t
    ensures f * Pow2(s) <= f * Pow2(t)
    decreases t
  {
    if s < t {
      PowGrows(f, s, t - 1);
      PowStep(f, t - 1);
    }
  }

  lemma LeastIsUnique(f: nat, low: nat, s: nat)
    requires f > 0 && low <= f * Pow2(s)
    requires forall t: nat :: t < s ==> f * Pow2(t) < low
    ensures s == Doublings(f, low)
  {
    DoublingsAreLeast(f, low);
  }

  /** The search stops past the upper end exactly if no shift at all lands in the range. */
  lemma OvershootMeansNoShift(f: nat, low: nat, high: nat)
    requires f > 0
    ensures f * Pow2(Doublings(f, low)) > high <==> !exists t: nat :: low <= f * Pow2(t) <= high
  {
    DoublingsAreLeast(f, low);
    var s := Doublings(f, low);
    if f * Pow2(s) > high {
      forall t: nat ensures !(low <= f * Pow2(t) <= high) {
        if t >= s {
          PowGrows(f, s, t);
        }
      }
    }
  }

  // ---------------------------------------------------------------------
  // Multiplier
  // ---------------------------------------------------------------------

  function Quotient(a: nat, d: nat): (r: nat)
    requires d > 0
    ensures r * d <= a < r * d + d
  {
    DivBounds(a, d);
    a / d
  }

  lemma DoubleProduct(a: nat, b: nat)
    ensures a * (2 * b) == 2 * (a * b)
  {
  }

  /** Half the VCO clock in units of 2^-kBits, to be divided by the divided input clock. */
  function Exact(f: Features, fvco: nat): nat {
    fvco / 2 * Pow2(f.kBits)
  }

  /** The driver's q, with one more bit for rounding. */
  function Ratio(f: Features, p: nat, fvco: nat): (q: nat)
    requires p > 0 && f.finput / p > 0
    ensures q * (f.finput / p) <= 2 * Exact(f, fvco) < q * (f.finput / p) + f.finput / p
  {
    DoubleProduct(fvco / 2, Pow2(f.kBits));
    Quotient(fvco / 2 * Pow2(f.kBits + 1), f.finput / p)
  }

  function IntegerPart(q: nat, kBits: nat): nat {
    Quotient(q, Pow2(kBits + 1))
  }

  function Fraction(q: nat, kBits: nat): nat {
    (q % Pow2(kBits + 1) + 1) / 2
  }

  predicate SignBit(k: nat, kBits: nat)
    requires kBits >= 1
  {
    k / Pow2(kBits - 1) % 2 == 1
  }

  /** The multiplier before the sign fix, in units of 2^-kBits. */
  function Multiplier(q: nat, kBits: nat): nat {
    IntegerPart(q, kBits) * Pow2(kBits) + Fraction(q, kBits)
  }

  /** What the hardware makes of m and a kBits wide two's complement k. */
  function Decoded(m: nat, k: nat, kBits: nat): int
    requires kBits >= 1
  {
    var field := k % Pow2(kBits);
    m * Pow2(kBits) + if SignBit(field, kBits) then field - Pow2(kBits) else field
  }

  function Fixed(q: nat, kBits: nat): nat
    requires kBits >= 1
  {
    IntegerPart(q, kBits) + if SignBit(Fraction(q, kBits), kBits) then 1 else 0
  }

  lemma MultiplierHalvesRatio(q: nat, kBits: nat)
    ensures Multiplier(q, kBits) == (q + 1) / 2
  {
    var unit := Pow2(kBits);
    var m, r := IntegerPart(q, kBits), q % (2 * unit);
    DivBounds(q, 2 * unit);
    assert m * (2 * unit) == 2 * (m * unit);
    assert q == 2 * (m * unit) + r;
  }

  lemma NearestFromFloor(exact: nat, d: nat, q: nat, n: nat)
    requires d > 0 && q * d <= 2 * exact < q * d + d && n == (q + 1) / 2
    ensures 2 * exact - d < 2 * (n * d) <= 2 * exact + d
  {
    if q % 2 == 0 {
      assert q == 2 * n;
      assert q * d == 2 * (n * d);
    } else {
      assert q + 1 == 2 * n;
      assert (q + 1) * d == q * d + d;
      assert (2 * n) * d == 2 * (n * d);
    }
  }

  /** Rounded to the nearest unit, halves upwards. */
  lemma MultiplierIsNearest(f: Features, p: nat, fvco: nat)
    requires p > 0 && f.finput / p > 0
    ensures var d := f.finput / p;
            var n := Multiplier(Ratio(f, p, fvco), f.kBits);
            2 * Exact(f, fvco) - d < 2 * (n * d) <= 2 * Exact(f, fvco) + d
  {
    var q := Ratio(f, p, fvco);
    MultiplierHalvesRatio(q, f.kBits);
    NearestFromFloor(Exact(f, fvco), f.finput / p, q, Multiplier(q, f.kBits));
  }

  lemma HighBit(k: nat, kBits: nat)
    requires kBits >= 1 && k <= Pow2(kBits)
    ensures SignBit(k, kBits) <==> Pow2(kBits - 1) <= k < Pow2(kBits)
  {
    var half := Pow2(kBits - 1);
    assert Pow2(kBits) == 2 * half;
    QuotientIs(k, half, if k < half then 0 else if k < 2 * half then 1 else 2);
  }

  lemma DecodedValue(m: nat, k: nat, kBits: nat)
    requires kBits >= 1 && k <= Pow2(kBits)
    ensures Decoded(if SignBit(k, kBits) then m + 1 else m, k, kBits)
         == m * Pow2(kBits) + if k < Pow2(kBits) then k else 0
  {
    var unit := Pow2(kBits);
    assert (m + 1) * unit == m * unit + unit;
    QuotientIs(k, unit, if k < unit then 0 else 1);
    DivBounds(k, unit);
    HighBit(k, kBits);
    HighBit(0, kBits);
  }

  lemma FractionRange(q: nat, kBits: nat)
    ensures Fraction(q, kBits) <= Pow2(kBits)
    ensures Fraction(q, kBits) == Pow2(kBits) <==> q % Pow2(kBits + 1) == Pow2(kBits + 1) - 1
  {
    assert Pow2(kBits + 1) == 2 * Pow2(kBits);
    var r := q % Pow2(kBits + 1);
    assert 0 <= r < 2 * Pow2(kBits);
  }

  /** The sign fix keeps the value exactly unless the fraction rounds up to a whole unit; then the
      multiplier comes out one too small. */
  lemma SignFixKeepsValue(q: nat, kBits: nat)
    requires kBits >= 1
    ensures var d := Decoded(Fixed(q, kBits), Fraction(q, kBits), kBits);
            && (d == Multiplier(q, kBits) <==> q % Pow2(kBits + 1) != Pow2(kBits + 1) - 1)
            && (d != Multiplier(q, kBits) ==> d == Multiplier(q, kBits) - Pow2(kBits))
  {
    FractionRange(q, kBits);
    DecodedValue(IntegerPart(q, kBits), Fraction(q, kBits), kBits);
  }

  // ---------------------------------------------------------------------
  // The solver
  // ---------------------------------------------------------------------

  function HsClock(mhz: nat): nat {
    mhz * 1000000
  }

  predicate SearchEnds(hsClock: nat, low: nat) {
    hsClock > 0 || low == 0
  }

  /** Doubling a clock reaches every minimum, unless the clock is zero and the minimum is not. */
  lemma SearchEndsExactlyWhen(hsClock: nat, low: nat)
    ensures SearchEnds(hsClock, low) <==> exists s: nat :: low <= hsClock * Pow2(s)
  {
    if hsClock > 0 {
      DoublingsAreLeast(hsClock, low);
    } else {
      assert forall s: nat :: hsClock * Pow2(s) == 0;
      assert hsClock * Pow2(0) == 0;
    }
  }

  predicate InRange(f: Features, mhz: nat)
    requires f.foptimum > 0
  {
    f.pMin <= PreDivider(f) <= f.pMax && f.foutMin <= HsClock(mhz) <= f.foutMax
  }

  /** What the solver needs in order not to divide by zero and not to search forever. */
  predicate Usable(f: Features, mhz: nat) {
    f.finput > 0 && f.foptimum > 0 && f.kBits >= 1 && (InRange(f, mhz) ==> SearchEnds(HsClock(mhz), f.fvcoMin))
  }

  /** The shift and VCO clock the search ends with; a zero minimum wraps the counter below zero. */
  function Search(hsClock: nat, low: nat): (nat, nat)
    requires SearchEnds(hsClock, low)
  {
    if low == 0 then (U32_MAX, 0) else (Doublings(hsClock, low), hsClock * Pow2(Doublings(hsClock, low)))
  }

  function Settle(f: Features, p: nat, s: nat, q: nat): Result
    requires f.kBits >= 1
  {
    if IntegerPart(q, f.kBits) < f.mMin || IntegerPart(q, f.kBits) > f.mMax then Err(MOutOfRange)
    else Ok(Pms(p, Fixed(q, f.kBits), s, Fraction(q, f.kBits)))
  }

  function Solve(f: Features, mhz: nat): Result
    requires Usable(f, mhz)
  {
    var p := PreDivider(f);
    var hsClock := HsClock(mhz);
    if p < f.pMin || p > f.pMax then Err(POutOfRange)
    else if hsClock < f.foutMin || hsClock > f.foutMax then Err(ClockOutOfRange)
    else
      var (s, fvco) := Search(hsClock, f.fvcoMin);
      if fvco > f.fvcoMax then Err(NoProperS)
      else if s < f.sMin || s > f.sMax then Err(SOutOfRange)
      else
        PreDividerIsNearest(f);
        Settle(f, p, s, Ratio(f, p, fvco))
  }

  /** A zero VCO minimum wraps the shift count, which only an unlimited maximum lets through. */
  lemma ZeroMinimumIsRefused(f: Features, mhz: nat)
    requires Usable(f, mhz) && f.fvcoMin == 0 && f.sMax < U32_MAX
    ensures Solve(f, mhz).Err? && Solve(f, mhz) != Err(NoProperS)
  {
  }

  /** What an accepted setting guarantees: ranges, the least shift, the nearest multiplier. */
  lemma AcceptedSetting(f: Features, mhz: nat)
    requires Usable(f, mhz) && Solve(f, mhz).Ok? && (f.fvcoMin > 0 || f.sMax < U32_MAX)
    ensures var pms := Solve(f, mhz).pms;
            var fvco := HsClock(mhz) * Pow2(pms.s);
            && f.pMin <= pms.p <= f.pMax && pms.p == PreDivider(f) && f.finput / pms.p > 0
            && f.sMin <= pms.s <= f.sMax
            && f.fvcoMin <= fvco <= f.fvcoMax
            && (forall t: nat :: t < pms.s ==> HsClock(mhz) * Pow2(t) < f.fvcoMin)
            && var q := Ratio(f, pms.p, fvco);
            var exact := Exact(f, fvco);
            var d := f.finput / pms.p;
            && 2 * exact - d < 2 * (Multiplier(q, f.kBits) * d) <= 2 * exact + d
            && (Decoded(pms.m, pms.k, f.kBits) == Multiplier(q, f.kBits)
                <==> q % Pow2(f.kBits + 1) != Pow2(f.kBits + 1) - 1)
  {
    if f.fvcoMin == 0 {
      ZeroMinimumIsRefused(f, mhz);
    }
    var pms := Solve(f, mhz).pms;
    PreDividerIsNearest(f);
    DoublingsAreLeast(HsClock(mhz), f.fvcoMin);
    var fvco := HsClock(mhz) * Pow2(pms.s);
    MultiplierIsNearest(f, pms.p, fvco);
    SignFixKeepsValue(Ratio(f, pms.p, fvco), f.kBits);
  }

  /** "No proper s" is reported exactly if no shift lands in the VCO range. */
  lemma NoProperSMeansNone(f: Features, mhz: nat)
    requires Usable(f, mhz) && f.fvcoMin > 0
    requires InRange(f, mhz)
    ensures Solve(f, mhz) == Err(NoProperS)
       <==> !exists t: nat :: f.fvcoMin <= HsClock(mhz) * Pow2(t) <= f.fvcoMax
  {
    OvershootMeansNoShift(HsClock(mhz), f.fvcoMin, f.fvcoMax);
    PreDividerIsNearest(f);
  }

  lemma FixedRange(f: Features, p: nat, s: nat, q: nat)
    requires f.kBits >= 1 && Settle(f, p, s, q).Ok?
    ensures var pms := Settle(f, p, s, q).pms;
            && f.mMin <= pms.m <= f.mMax + 1
            && (pms.m == f.mMax + 1 <==> IntegerPart(q, f.kBits) == f.mMax && SignBit(Fraction(q, f.kBits), f.kBits))
  {
  }

  /** In terms of the ratio: its fraction lies in the half that the hardware reads as negative. */
  lemma UpperHalf(q: nat, kBits: nat)
    requires kBits >= 1
    ensures SignBit(Fraction(q, kBits), kBits)
            <==> Pow2(kBits) - 1 <= q % Pow2(kBits + 1) < Pow2(kBits + 1) - 1
  {
    FractionRange(q, kBits);
    HighBit(Fraction(q, kBits), kBits);
    assert Pow2(kBits + 1) == 2 * Pow2(kBits) && Pow2(kBits) == 2 * Pow2(kBits - 1);
  }

  /** The range check on m comes before the fix: the final m exceeds its maximum, by one, exactly if the
      integer part is the maximum and the fraction is read as negative. */
  lemma FinalMRange(f: Features, mhz: nat)
    requires Usable(f, mhz) && Solve(f, mhz).Ok?
    ensures InRange(f, mhz) && f.finput / PreDivider(f) > 0
    ensures var pms := Solve(f, mhz).pms;
            var q := Ratio(f, PreDivider(f), Search(HsClock(mhz), f.fvcoMin).1);
            && f.mMin <= pms.m <= f.mMax + 1
            && (pms.m > f.mMax <==>
                IntegerPart(q, f.kBits) == f.mMax
                && Pow2(f.kBits) - 1 <= q % Pow2(f.kBits + 1) < Pow2(f.kBits + 1) - 1)
  {
    PreDividerIsNearest(f);
    var (s, fvco) := Search(HsClock(mhz), f.fvcoMin);
    var q := Ratio(f, PreDivider(f), fvco);
    FixedRange(f, PreDivider(f), s, q);
    UpperHalf(q, f.kBits);
  }

  /** A concrete accepted setting with m above its maximum: 500/900 rounds to 1/2, read as 1 - 1/2. */
  lemma ExcessMWitness()
    ensures var f := Features(900000, 900000, 0, 10000000, 1, 10000000, 1, 1, 0, 0, 0, 0, 1);
            && Usable(f, 1) && Solve(f, 1) == Ok(Pms(1, 1, 0, 1)) && f.mMax == 0
  {
    var f := Features(900000, 900000, 0, 10000000, 1, 10000000, 1, 1, 0, 0, 0, 0, 1);
    assert PreDivider(f) == 1;
    assert Search(HsClock(1), 1) == (0, 1000000);
    QuotientIs(2000000, 900000, 2);
    assert Pow2(0) == 1 && Pow2(1) == 2 && Pow2(2) == 4;
    var q := Ratio(f, 1, 1000000);
    assert q == 2;
    QuotientIs(q, 4, 0);
    assert Fraction(q, 1) == 1;
  }

  /** A concrete setting that loses a whole unit: a multiplier of 3/4 should round up to 1, and with a
      one-bit fraction comes out as 0. */
  lemma LostUnitWitness()
    ensures var f := Features(666666, 666666, 0, 10000000, 1, 10000000, 1, 1, 0, 10, 0, 0, 1);
            && Usable(f, 1) && Solve(f, 1) == Ok(Pms(1, 0, 0, 2))
            && Multiplier(Ratio(f, 1, 1000000), 1) == Pow2(1) && Decoded(0, 2, 1) == 0
  {
    var f := Features(666666, 666666, 0, 10000000, 1, 10000000, 1, 1, 0, 10, 0, 0, 1);
    assert PreDivider(f) == 1;
    assert Search(HsClock(1), 1) == (0, 1000000);
    QuotientIs(2000000, 666666, 3);
    assert Pow2(1) == 2 && Pow2(2) == 4;
    var q := Ratio(f, 1, 1000000);
    assert q == 3;
    QuotientIs(q, 4, 0);
    assert Fraction(q, 1) == 2;
  }

  /** The search loop; the shift count is unsigned and wraps when the loop does not run at all. */
  method SearchShift(hsClock: nat, low: nat) returns (s: nat, fvco: nat)
    requires SearchEnds(hsClock, low)
    ensures (s, fvco) == Search(hsClock, low)
  {
    s, fvco := 0, 0;
    while fvco < low
      invariant s == 0 ==> fvco == 0
      invariant s > 0 ==> low > 0 && fvco == hsClock * Pow2(s - 1)
      invariant forall t: nat :: t < s - 1 ==> hsClock * Pow2(t) < low
      decreases low - fvco
    {
      if s > 0 {
        PowStep(hsClock, s - 1);
        PowGrows(hsClock, 0, s - 1);
      }
      fvco := hsClock * Pow2(s);
      s := s + 1;
    }
    if s == 0 {
      s := U32_MAX;
    } else {
      s := s - 1;
      LeastIsUnique(hsClock, low, s);
    }
  }

  /** The part of the solver that finds m and k. */
  method Multiply(f: Features, p: nat, s: nat, fvco: nat) returns (r: Result)
    requires f.kBits >= 1 && p > 0 && f.finput / p > 0
    ensures r == Settle(f, p, s, Ratio(f, p, fvco))
  {
    var q := Ratio(f, p, fvco);
    var m := Quotient(q, Pow2(f.kBits + 1));
    if m < f.mMin || m > f.mMax {
      return Err(MOutOfRange);
    }
    var k := q % Pow2(f.kBits + 1);
    k := (k + 1) / 2;
    if SignBit(k, f.kBits) {
      m := m + 1;
    }
    r := Ok(Pms(p, m, s, k));
  }

  method CalcPmsk(f: Features, mhz: nat) returns (r: Result)
    requires Usable(f, mhz)
    ensures r == Solve(f, mhz)
  {
    var p := (f.finput + f.foptimum / 2) / f.foptimum;
    if p == 0 {
      p := 1;
    }
    if p < f.pMin || p > f.pMax {
      return Err(POutOfRange);
    }
    var hsClock := mhz * 1000000;
    if hsClock < f.foutMin || hsClock > f.foutMax {
      return Err(ClockOutOfRange);
    }
    var s, fvco := SearchShift(hsClock, f.fvcoMin);
    if fvco > f.fvcoMax {
      return Err(NoProperS);
    }
    if s < f.sMin || s > f.sMax {
      return Err(SOutOfRange);
    }
    PreDividerIsNearest(f);
    r := Multiply(f, p, s, fvco);
  }
}
