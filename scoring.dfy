/** The powerlifting scoring engine of the PowerOPPS calculator: five forward
    scoring systems (old Wilks, Wilks 2.0, DOTS, IPF points and IPF GL points),
    the inverse that turns a target score back into a required lift for DOTS,
    Wilks 2.0 and IPF GL, and the pound/kilogram conversion at the boundary.

    Numbers are reals. `Math.exp` and `Math.log` are opaque host functions passed
    in as `HostMath`. A division by zero yields a non-finite `Num`, as it does in
    JavaScript, instead of being excluded by a precondition. */
module Scoring {

  /** `Math.exp` and `Math.log`; their values are not modelled. */
  datatype HostMath = HostMath(exp: real -> real, ln: real -> real)

  /** A JavaScript number as the scoring code can produce it: a real, or one of the
      non-finite values that a division by zero gives. */
  datatype Num = Finite(value: real) | PosInfinity | NegInfinity | NaN

  /** `a / b` in JavaScript, for finite a and b. */
  function Quotient(a: real, b: real): (q: Num)
    ensures q.Finite? <==> b != 0.0
    ensures b != 0.0 ==> q.value * b == a
  {
    if b != 0.0 then Finite(a / b)
    else if a > 0.0 then PosInfinity
    else if a < 0.0 then NegInfinity
    else NaN
  }

  /** `x * k` for a finite k. */
  function Scale(x: Num, k: real): Num {
    match x
    case Finite(v) => Finite(v * k)
    case PosInfinity => if k > 0.0 then PosInfinity else if k < 0.0 then NegInfinity else NaN
    case NegInfinity => if k > 0.0 then NegInfinity else if k < 0.0 then PosInfinity else NaN
    case NaN => NaN
  }

  /** `k + x` for a finite k. */
  function Shift(k: real, x: Num): Num {
    match x
    case Finite(v) => Finite(k + v)
    case _ => x
  }

  /** `x < 0 ? 0.0 : x`: the guard the IPF systems apply to their score. */
  function ClampNegative(x: Num): Num {
    match x
    case Finite(v) => if v < 0.0 then Finite(0.0) else x
    case NegInfinity => Finite(0.0)
    case _ => x
  }

  /** Not a negative number (NaN is not negative either). */
  predicate NonNegative(x: Num) {
    x != NegInfinity && (x.Finite? ==> x.value >= 0.0)
  }

  /** `Math.min(Math.max(x, lo), hi)`. */
  function Clamp(x: real, lo: real, hi: real): (r: real)
    ensures lo <= hi ==> lo <= r <= hi
    ensures lo <= x <= hi ==> r == x
    ensures lo <= hi && x >= hi ==> r == hi
    ensures lo <= hi && x <= lo ==> r == lo
  {
    var atLeast := if x > lo then x else lo;
    if atLeast < hi then atLeast else hi
  }

  /** `Math.pow(x, n)` for a whole exponent. */
  function Pow(x: real, n: nat): real {
    if n == 0 then 1.0 else Pow(x, n - 1) * x
  }

  /** coeff[0] + coeff[1]·x + ... + coeff[n-1]·x^(n-1). */
  function PolyPrefix(coeff: seq<real>, x: real, n: nat): real
    requires n <= |coeff|
  {
    if n == 0 then 0.0 else PolyPrefix(coeff, x, n - 1) + coeff[n - 1] * Pow(x, n - 1)
  }

  /** The polynomial with coefficients `coeff`, lowest degree first, at x. */
  function Poly(coeff: seq<real>, x: real): real {
    PolyPrefix(coeff, x, |coeff|)
  }

  /** The denominator loop: start from coeff[0] and add coeff[i]·x^i for each
      further coefficient. */
  method Denominator(coeff: seq<real>, x: real) returns (d: real)
    requires |coeff| >= 1
    ensures d == Poly(coeff, x)
  {
    d := coeff[0];
    var i := 1;
    while i < |coeff|
      invariant 1 <= i <= |coeff|
      invariant d == PolyPrefix(coeff, x, i)
    {
      d := d + coeff[i] * Pow(x, i);
      i := i + 1;
    }
  }

  // ---------------------------------------------------------------------------
  // Polynomial systems: old Wilks, Wilks 2.0, DOTS

  /** A polynomial scoring system: score = numerator / P(clamp(bw)) × lift. */
  datatype PolySystem = PolySystem(numerator: real, minBw: real, maxBw: real, coeff: seq<real>)

  predicate WellFormed(sys: PolySystem) {
    sys.numerator != 0.0 && sys.minBw <= sys.maxBw && |sys.coeff| >= 1
  }

  /** The original Wilks formula: numerator 500, bounds 40–201.9 kg (men),
      26.51–154.53 kg (women). */
  function OldWilksSystem(female: bool): PolySystem {
    if female then
      PolySystem(500.0, 26.51, 154.53,
        [594.31747775582, -27.23842536447, 0.82112226871, -0.00930733913, 0.00004731582, -0.00000009054])
    else
      PolySystem(500.0, 40.0, 201.9,
        [-216.0475144, 16.2606339, -0.002388645, -0.00113732, 0.00000701863, -0.00000001291])
  }

  /** Wilks 2.0: numerator 600, bounds 40–200.95 kg (men), 40–150.95 kg (women). */
  function NewWilksSystem(female: bool): PolySystem {
    if female then
      PolySystem(600.0, 40.0, 150.95,
        [-125.425539779509, 13.7121941940668, -0.0330725063103405, -0.0010504000506583,
         0.00000938773881462799, -0.000000023334613884954])
    else
      PolySystem(600.0, 40.0, 200.95,
        [47.4617885411949, 8.47206137941125, 0.073694103462609, -0.00139583381094385,
         0.00000707665973070743, -0.0000000120804336482315])
  }

  /** DOTS: numerator 500, bounds 40–210 kg (men), 40–150 kg (women). */
  function DotsSystem(female: bool): PolySystem {
    if female then
      PolySystem(500.0, 40.0, 150.0, [-57.96288, 13.6175032, -0.1126655495, 0.0005158568, -0.0000010706])
    else
      PolySystem(500.0, 40.0, 210.0, [-307.75076, 24.0900756, -0.1918759221, 0.0007391293, -0.000001093])
  }

  /** The three systems have the numerators and body-weight bounds listed above. */
  lemma SystemsWellFormed(female: bool)
    ensures WellFormed(OldWilksSystem(female)) && WellFormed(NewWilksSystem(female)) && WellFormed(DotsSystem(female))
    ensures OldWilksSystem(female).numerator == 500.0
    ensures NewWilksSystem(female).numerator == 600.0
    ensures DotsSystem(female).numerator == 500.0
    ensures OldWilksSystem(female).minBw == (if female then 26.51 else 40.0)
    ensures OldWilksSystem(female).maxBw == (if female then 154.53 else 201.9)
    ensures NewWilksSystem(female).minBw == 40.0 && DotsSystem(female).minBw == 40.0
    ensures NewWilksSystem(female).maxBw == (if female then 150.95 else 200.95)
    ensures DotsSystem(female).maxBw == (if female then 150.0 else 210.0)
    ensures |OldWilksSystem(female).coeff| == 6 && |NewWilksSystem(female).coeff| == 6 && |DotsSystem(female).coeff| == 5
  {
  }

  /** The denominator: the polynomial at the clamped body weight. */
  function Denom(sys: PolySystem, bw: real): real {
    Poly(sys.coeff, Clamp(bw, sys.minBw, sys.maxBw))
  }

  /** `(numerator / denominator) * weightLifted`. */
  function PolyScore(sys: PolySystem, bw: real, wl: real): Num {
    Scale(Quotient(sys.numerator, Denom(sys, bw)), wl)
  }

  /** `targetScore * (denominator / numerator)`: the lift that reaches `ts`. */
  function PolyTarget(sys: PolySystem, bw: real, ts: real): real
    requires sys.numerator != 0.0
  {
    ts * (Denom(sys, bw) / sys.numerator)
  }

  /** One polynomial score, computed as the source does: clamp, run the
      denominator loop, divide and multiply. */
  method CalculatePolyScore(sys: PolySystem, bw: real, wl: real) returns (score: Num)
    requires |sys.coeff| >= 1
    ensures score == PolyScore(sys, bw, wl)
  {
    var clamped := Clamp(bw, sys.minBw, sys.maxBw);
    var denominator := Denominator(sys.coeff, clamped);
    score := Scale(Quotient(sys.numerator, denominator), wl);
  }

  /** Body weights at or above the upper bound all score alike, and so do body
      weights at or below the lower bound. */
  lemma ScoreFlatOutsideBounds(sys: PolySystem, bw1: real, bw2: real, wl: real)
    requires sys.minBw <= sys.maxBw
    requires (bw1 >= sys.maxBw && bw2 >= sys.maxBw) || (bw1 <= sys.minBw && bw2 <= sys.minBw)
    ensures PolyScore(sys, bw1, wl) == PolyScore(sys, bw2, wl)
  {
  }

  /** Where the denominator is nonzero the score is finite and equals
      numerator / denominator × lift. */
  lemma PolyScoreLinear(sys: PolySystem, bw: real, wl: real)
    requires Denom(sys, bw) != 0.0
    ensures PolyScore(sys, bw, wl) == Finite(sys.numerator / Denom(sys, bw) * wl)
  {
  }

  /** The score scales with the lift: k times the lift gives k times the score. */
  lemma PolyScoreHomogeneous(sys: PolySystem, bw: real, wl: real, k: real)
    requires Denom(sys, bw) != 0.0
    ensures PolyScore(sys, bw, k * wl).value == k * PolyScore(sys, bw, wl).value
  {
    var q := sys.numerator / Denom(sys, bw);
    assert q * (k * wl) == k * (q * wl);
  }

  /** With a positive denominator a heavier lift never scores less. */
  lemma PolyScoreMonotone(sys: PolySystem, bw: real, wl1: real, wl2: real)
    requires sys.numerator > 0.0 && Denom(sys, bw) > 0.0
    requires wl1 <= wl2
    ensures PolyScore(sys, bw, wl1).value <= PolyScore(sys, bw, wl2).value
  {
    var q := sys.numerator / Denom(sys, bw);
    assert q > 0.0;
    assert q * wl1 <= q * wl2;
  }

  /** The inverse undoes the forward score: scoring the target lift gives back the
      target score, and the target for a lift's score is that lift. */
  lemma PolyRoundTrip(sys: PolySystem, bw: real, ts: real, wl: real)
    requires sys.numerator != 0.0 && Denom(sys, bw) != 0.0
    ensures PolyScore(sys, bw, PolyTarget(sys, bw, ts)) == Finite(ts)
    ensures PolyTarget(sys, bw, PolyScore(sys, bw, wl).value) == wl
  {
    var n, d := sys.numerator, Denom(sys, bw);
    calc {
      n / d * (ts * (d / n));
      ==
      ts * ((n / d) * (d / n));
      == { assert (n / d) * (d / n) == 1.0; }
      ts;
    }
    calc {
      n / d * wl * (d / n);
      ==
      wl * ((n / d) * (d / n));
      == { assert (n / d) * (d / n) == 1.0; }
      wl;
    }
  }

  // ---------------------------------------------------------------------------
  // Coefficient tables of the IPF systems

  /** Equipment: classic (raw) or equipped. */
  datatype Event = CL | EQ

  /** Competition: full powerlifting or bench press only. */
  datatype Category = PL | BN

  function EventCode(e: Event): string {
    match e
    case CL => "CL"
    case EQ => "EQ"
  }

  function CategoryCode(c: Category): string {
    match c
    case PL => "PL"
    case BN => "BN"
  }

  /** `event + category`, the key into the coefficient tables. */
  function Competition(e: Event, c: Category): string {
    EventCode(e) + CategoryCode(c)
  }

  /** `table[key] || table["CLPL"]`. */
  function Lookup<V>(table: map<string, V>, key: string): V
    requires "CLPL" in table
  {
    if key in table then table[key] else table["CLPL"]
  }

  datatype IpfCoefficients = IpfCoefficients(c0: real, c1: real, c2: real, c3: real)

  function IpfTable(female: bool): map<string, IpfCoefficients> {
    if female then
      map["CLPL" := IpfCoefficients(125.1435, 228.03, 34.5246, 86.8301),
          "CLBN" := IpfCoefficients(25.0485, 43.848, 6.7172, 13.952),
          "EQPL" := IpfCoefficients(176.58, 373.315, 48.4534, 110.0103),
          "EQBN" := IpfCoefficients(49.106, 124.209, 23.199, 67.4926)]
    else
      map["CLPL" := IpfCoefficients(310.67, 857.785, 53.216, 147.0835),
          "CLBN" := IpfCoefficients(86.4745, 259.155, 17.5785, 53.122),
          "EQPL" := IpfCoefficients(387.265, 1121.28, 80.6324, 222.4896),
          "EQBN" := IpfCoefficients(133.94, 441.465, 35.3938, 113.0057)]
  }

  datatype GlCoefficients = GlCoefficients(a: real, b: real, c: real)

  function GlTable(female: bool): map<string, GlCoefficients> {
    if female then
      map["CLPL" := GlCoefficients(610.32796, 1045.59282, 0.03048),
          "CLBN" := GlCoefficients(142.40398, 442.52671, 0.04724),
          "EQPL" := GlCoefficients(758.63878, 949.31382, 0.02435),
          "EQBN" := GlCoefficients(221.82209, 357.00377, 0.02937)]
    else
      map["CLPL" := GlCoefficients(1199.72839, 1025.18162, 0.00921),
          "CLBN" := GlCoefficients(320.98041, 281.40258, 0.01008),
          "EQPL" := GlCoefficients(1236.25115, 1449.21864, 0.01644),
          "EQBN" := GlCoefficients(381.22073, 733.79378, 0.02398)]
  }

  function IpfCoeff(female: bool, e: Event, c: Category): IpfCoefficients {
    Lookup(IpfTable(female), Competition(e, c))
  }

  function GlCoeff(female: bool, e: Event, c: Category): GlCoefficients {
    Lookup(GlTable(female), Competition(e, c))
  }

  /** Every equipment/competition pair has its own row in both tables for both
      sexes, so the "CLPL" fallback is never taken, and different pairs read
      different keys. */
  lemma {:induction false} CompetitionAlwaysListed(female: bool, e: Event, c: Category, e2: Event, c2: Category)
    ensures Competition(e, c) in IpfTable(female) && Competition(e, c) in GlTable(female)
    ensures IpfCoeff(female, e, c) == IpfTable(female)[Competition(e, c)]
    ensures GlCoeff(female, e, c) == GlTable(female)[Competition(e, c)]
    ensures (e, c) != (e2, c2) ==> Competition(e, c) != Competition(e2, c2)
  {
    var k, k2 := Competition(e, c), Competition(e2, c2);
    match (e, c) {
      case (CL, PL) => assert k == "CLPL";
      case (CL, BN) => assert k == "CLBN";
      case (EQ, PL) => assert k == "EQPL";
      case (EQ, BN) => assert k == "EQBN";
    }
    if (e, c) != (e2, c2) {
      if e != e2 {
        assert k[1] != k2[1] || k[0] != k2[0];
      } else {
        assert k[2] != k2[2] || k[3] != k2[3];
      }
    }
  }

  // ---------------------------------------------------------------------------
  // IPF points and IPF GL points

  /** Legacy IPF points: 0 below 40 kg, otherwise
      500 + 100·(lift − (c0·ln bw − c1)) / (c2·ln bw − c3), never below 0. */
  function Ipf(bw: real, wl: real, female: bool, e: Event, c: Category, host: HostMath): (r: Num)
    ensures NonNegative(r)
    ensures bw < 40.0 ==> r == Finite(0.0)
  {
    var coeff := IpfCoeff(female, e, c);
    if bw < 40.0 then Finite(0.0)
    else
      var lnbw := host.ln(bw);
      var score := Shift(500.0, Scale(Quotient(wl - (coeff.c0 * lnbw - coeff.c1), coeff.c2 * lnbw - coeff.c3), 100.0));
      ClampNegative(score)
  }

  /** a − b·e^(−c·bw), the IPF GL denominator. */
  function GlDenominator(bw: real, female: bool, e: Event, c: Category, host: HostMath): real {
    var coeff := GlCoeff(female, e, c);
    coeff.a - coeff.b * host.exp(-coeff.c * bw)
  }

  /** IPF GL points: 0 below 35 kg, otherwise lift × 100 / (a − b·e^(−c·bw)),
      never below 0. */
  function IpfGl(bw: real, wl: real, female: bool, e: Event, c: Category, host: HostMath): (r: Num)
    ensures NonNegative(r)
    ensures bw < 35.0 ==> r == Finite(0.0)
  {
    if bw < 35.0 then Finite(0.0)
    else ClampNegative(Scale(Quotient(100.0, GlDenominator(bw, female, e, c, host)), wl))
  }

  /** `targetScore / (100 / g)`: when g is 0 the divisor is Infinity and the
      result 0; in every case it is targetScore · g / 100. */
  function GlInverse(ts: real, g: real): (w: real)
    ensures w == ts * g / 100.0
  {
    if g == 0.0 then 0.0 else ts / (100.0 / g)
  }

  /** The IPF GL inverse undoes the forward score wherever the forward formula
      applies (at least 35 kg, nonzero denominator, score not negative). */
  lemma IpfGlRoundTrip(bw: real, ts: real, wl: real, female: bool, e: Event, c: Category, host: HostMath)
    requires bw >= 35.0
    requires GlDenominator(bw, female, e, c, host) != 0.0
    ensures ts >= 0.0 ==> IpfGl(bw, GlInverse(ts, GlDenominator(bw, female, e, c, host)), female, e, c, host) == Finite(ts)
    ensures IpfGl(bw, wl, female, e, c, host) == Finite(wl * (100.0 / GlDenominator(bw, female, e, c, host)))
            && wl * (100.0 / GlDenominator(bw, female, e, c, host)) >= 0.0
            ==> GlInverse(IpfGl(bw, wl, female, e, c, host).value, GlDenominator(bw, female, e, c, host)) == wl
  {
    GlScoreInverse(GlDenominator(bw, female, e, c, host), ts, wl);
  }

  /** The round trip for one nonzero GL denominator g. */
  lemma GlScoreInverse(g: real, ts: real, wl: real)
    requires g != 0.0
    ensures ts >= 0.0 ==> ClampNegative(Scale(Quotient(100.0, g), GlInverse(ts, g))) == Finite(ts)
    ensures ClampNegative(Scale(Quotient(100.0, g), wl)) == Finite(wl * (100.0 / g)) && wl * (100.0 / g) >= 0.0
            ==> GlInverse(wl * (100.0 / g), g) == wl
  {
    PointsScaleCancels(g, ts);
    PointsScaleCancels(g, wl);
  }

  /** Scaling by 100 / g and by g / 100 cancel out, in either order. */
  lemma PointsScaleCancels(g: real, x: real)
    requires g != 0.0
    ensures x * g / 100.0 * (100.0 / g) == x
    ensures x * (100.0 / g) * g / 100.0 == x
  {
    assert (100.0 / g) * (g / 100.0) == 1.0;
    calc {
      x * g / 100.0 * (100.0 / g);
      ==
      x * ((100.0 / g) * (g / 100.0));
      ==
      x;
    }
    calc {
      x * (100.0 / g) * g / 100.0;
      ==
      x * ((100.0 / g) * (g / 100.0));
      ==
      x;
    }
  }

  /** Below 35 kg the forward IPF GL score is 0, while the inverse applies no floor:
      it still answers ts · g / 100 for the unfloored body weight. */
  lemma IpfGlInverseHasNoFloor(bw: real, ts: real, female: bool, e: Event, c: Category, host: HostMath)
    requires bw < 35.0
    ensures IpfGl(bw, GlInverse(ts, GlDenominator(bw, female, e, c, host)), female, e, c, host) == Finite(0.0)
    ensures GlInverse(ts, GlDenominator(bw, female, e, c, host)) == ts * GlDenominator(bw, female, e, c, host) / 100.0
  {
  }

  // ---------------------------------------------------------------------------
  // Units and the two entry points

  /** `LBS_TO_KG = 1 / 2.204623`. */
  const LbsToKg: real := 1.0 / 2.204623

  /** Kilograms from the entered unit: unchanged in kg mode, × LBS_TO_KG in lbs mode. */
  function ToKg(x: real, isKg: bool): real {
    if isKg then x else x * LbsToKg
  }

  /** The entered unit from kilograms: unchanged in kg mode, ÷ LBS_TO_KG in lbs mode. */
  function FromKg(w: real, isKg: bool): real {
    if isKg then w else w / LbsToKg
  }

  /** Converting to kilograms and back, or back and to kilograms, is the identity. */
  lemma UnitRoundTrip(x: real, isKg: bool)
    ensures FromKg(ToKg(x, isKg), isKg) == x
    ensures ToKg(FromKg(x, isKg), isKg) == x
    ensures ToKg(x, true) == x && FromKg(x, true) == x
  {
    assert LbsToKg > 0.0;
  }

  /** The five scores, labelled as the calculator shows them. */
  datatype ScoreResults = ScoreResults(ipfGL: Num, wilks2: Num, dots: Num, ipf: Num, oldWilks: Num)

  /** `calculateAllScores`: convert both weights once, then score with every system. */
  function AllScores(bw: real, wl: real, female: bool, e: Event, c: Category, isKg: bool, host: HostMath): ScoreResults {
    var bwKg := ToKg(bw, isKg);
    var wlKg := ToKg(wl, isKg);
    ScoreResults(
      IpfGl(bwKg, wlKg, female, e, c, host),
      PolyScore(NewWilksSystem(female), bwKg, wlKg),
      PolyScore(DotsSystem(female), bwKg, wlKg),
      Ipf(bwKg, wlKg, female, e, c, host),
      PolyScore(OldWilksSystem(female), bwKg, wlKg))
  }

  /** Scores of weights entered in pounds equal the scores of the same weights
      entered in kilograms. */
  lemma PoundsScoreAsKilograms(bw: real, wl: real, female: bool, e: Event, c: Category, host: HostMath)
    ensures AllScores(FromKg(bw, false), FromKg(wl, false), female, e, c, false, host)
         == AllScores(bw, wl, female, e, c, true, host)
  {
    UnitRoundTrip(bw, false);
    UnitRoundTrip(wl, false);
  }

  method CalculateAllScores(bw: real, wl: real, female: bool, e: Event, c: Category, isKg: bool, host: HostMath)
    returns (r: ScoreResults)
    ensures r == AllScores(bw, wl, female, e, c, isKg, host)
  {
    var bwKg := ToKg(bw, isKg);
    var wlKg := ToKg(wl, isKg);
    SystemsWellFormed(female);
    var wilks2 := CalculatePolyScore(NewWilksSystem(female), bwKg, wlKg);
    var dots := CalculatePolyScore(DotsSystem(female), bwKg, wlKg);
    var oldWilks := CalculatePolyScore(OldWilksSystem(female), bwKg, wlKg);
    r := ScoreResults(IpfGl(bwKg, wlKg, female, e, c, host), wilks2, dots, Ipf(bwKg, wlKg, female, e, c, host), oldWilks);
  }

  /** The systems the inverse supports. */
  datatype ScoreType = Dots | IpfGlPoints | Wilks2

  /** `calculateTargetWeight`: the lift that reaches `ts` in the chosen system, in
      the entered unit. */
  function TargetWeight(bw: real, ts: real, t: ScoreType, female: bool, e: Event, c: Category, isKg: bool, host: HostMath): real {
    var bwKg := ToKg(bw, isKg);
    var weightKg :=
      match t
      case Dots => PolyTarget(DotsSystem(female), bwKg, ts)
      case Wilks2 => PolyTarget(NewWilksSystem(female), bwKg, ts)
      case IpfGlPoints => GlInverse(ts, GlDenominator(bwKg, female, e, c, host));
    FromKg(weightKg, isKg)
  }

  /** The DOTS and Wilks 2.0 branches: clamp, run the denominator loop, scale. */
  method CalculatePolyTarget(sys: PolySystem, bw: real, ts: real) returns (weightKg: real)
    requires WellFormed(sys)
    ensures weightKg == PolyTarget(sys, bw, ts)
  {
    var clamped := Clamp(bw, sys.minBw, sys.maxBw);
    var denominator := Denominator(sys.coeff, clamped);
    weightKg := ts * (denominator / sys.numerator);
  }

  method CalculateTargetWeight(bw: real, ts: real, t: ScoreType, female: bool, e: Event, c: Category, isKg: bool, host: HostMath)
    returns (w: real)
    ensures w == TargetWeight(bw, ts, t, female, e, c, isKg, host)
  {
    var bwKg := ToKg(bw, isKg);
    var weightKg: real;
    SystemsWellFormed(female);
    if t == Dots {
      weightKg := CalculatePolyTarget(DotsSystem(female), bwKg, ts);
    } else if t == Wilks2 {
      weightKg := CalculatePolyTarget(NewWilksSystem(female), bwKg, ts);
    } else {
      var g := GlDenominator(bwKg, female, e, c, host);
      weightKg := if g == 0.0 then 0.0 else ts / (100.0 / g);
    }
    w := if isKg then weightKg else weightKg / LbsToKg;
  }

  /** End to end, in either unit: the DOTS or Wilks 2.0 lift that the inverse
      proposes scores exactly the target, wherever the denominator is nonzero. */
  lemma TargetWeightReachesPolyTarget(bw: real, ts: real, t: ScoreType, female: bool, e: Event, c: Category, isKg: bool, host: HostMath)
    requires t == Dots || t == Wilks2
    requires t == Dots ==> Denom(DotsSystem(female), ToKg(bw, isKg)) != 0.0
    requires t == Wilks2 ==> Denom(NewWilksSystem(female), ToKg(bw, isKg)) != 0.0
    ensures t == Dots ==> AllScores(bw, TargetWeight(bw, ts, t, female, e, c, isKg, host), female, e, c, isKg, host).dots == Finite(ts)
    ensures t == Wilks2 ==> AllScores(bw, TargetWeight(bw, ts, t, female, e, c, isKg, host), female, e, c, isKg, host).wilks2 == Finite(ts)
  {
    var bwKg := ToKg(bw, isKg);
    var sys := if t == Dots then DotsSystem(female) else NewWilksSystem(female);
    UnitRoundTrip(PolyTarget(sys, bwKg, ts), isKg);
    PolyRoundTrip(sys, bwKg, ts, 0.0);
  }

  /** End to end, in either unit: the IPF GL lift that the inverse proposes scores
      exactly the target when the body weight is at least 35 kg. */
  lemma TargetWeightReachesGlTarget(bw: real, ts: real, female: bool, e: Event, c: Category, isKg: bool, host: HostMath)
    requires ToKg(bw, isKg) >= 35.0 && ts >= 0.0
    requires GlDenominator(ToKg(bw, isKg), female, e, c, host) != 0.0
    ensures AllScores(bw, TargetWeight(bw, ts, IpfGlPoints, female, e, c, isKg, host), female, e, c, isKg, host).ipfGL == Finite(ts)
  {
    var bwKg := ToKg(bw, isKg);
    UnitRoundTrip(GlInverse(ts, GlDenominator(bwKg, female, e, c, host)), isKg);
    IpfGlRoundTrip(bwKg, ts, 0.0, female, e, c, host);
  }
}
