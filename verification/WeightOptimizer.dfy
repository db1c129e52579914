/** Strategy weights: proportional to scores, constrained, normalised, and averaged over
    windows, with exact rationals for the source's floats.
  */
module WeightOptimizing {
  import opened Common
  import opened MapSums

  type Weights = map<string, real>

  const MIN_WEIGHT := 0.05
  const MAX_WEIGHT := 0.40
  const SENTIMENT_MAX := 0.25

  /** Below this a sum counts as zero. */
  const TINY := 0.0000000001
  /** Below this a weight counts as zero. */
  const NEGLIGIBLE := 0.000001

  function Max(a: real, b: real): real { if b > a then b else a }

  function Min(a: real, b: real): real { if b < a then b else a }

  function Quotient(x: real, total: real): real
    requires total > 0.0
  {
    x / total
  }

  lemma QuotientIsUnique(q: real, x: real, total: real)
    requires total > 0.0 && q * total == x
    ensures q == Quotient(x, total)
  {
    var r := x / total;
    assert r * total == x;
    assert (q - r) * total == 0.0;
    SignOfFactor(q - r, total);
    SignOfFactor(r - q, total);
  }

  lemma QuotientTimes(x: real, total: real)
    requires total > 0.0
    ensures Quotient(x, total) * total == x
    ensures Quotient(total, total) == 1.0
  {
  }

  lemma QuotientAdds(x: real, y: real, total: real)
    requires total > 0.0
    ensures Quotient(x + y, total) == Quotient(x, total) + Quotient(y, total)
  {
    QuotientTimes(x, total);
    QuotientTimes(y, total);
    var p, q := Quotient(x, total), Quotient(y, total);
    assert (p + q) * total == x + y;
    QuotientIsUnique(p + q, x + y, total);
  }

  lemma SumOfQuotients(m: Weights, quotients: Weights, total: real)
    requires total > 0.0
    requires quotients.Keys == m.Keys && forall k :: k in m ==> quotients[k] == Quotient(m[k], total)
    ensures Sum(quotients) == Quotient(Sum(m), total)
  {
    var g := (x: real) => Quotient(x, total);
    forall x, y
      ensures AdditiveAt(g, x, y)
    {
      QuotientAdds(x, y, total);
    }
    QuotientIsUnique(0.0, 0.0, total);
    SumOfMapped(m, quotients, g);
  }

  /** Dividing every value by the sum makes the sum 1. */
  lemma SharesSumToOne(m: Weights, shares: Weights)
    requires Sum(m) > 0.0
    requires shares.Keys == m.Keys && forall k :: k in m ==> shares[k] == Quotient(m[k], Sum(m))
    ensures Sum(shares) == 1.0
  {
    SumOfQuotients(m, shares, Sum(m));
    QuotientTimes(Sum(m), Sum(m));
  }

  // ---- Weights from scores ----

  datatype Metrics = Metrics(sharpe: real, calmar: real, mdd: real)

  function SharpeScore(m: Metrics): real { Max(m.sharpe, 0.0) }

  function RiskAdjustedScore(m: Metrics): real {
    var mddAbs := if m.mdd < 0.0 then -m.mdd else m.mdd;
    Times3(Max(m.sharpe, 0.0), 1.0 + Max(m.calmar, 0.0), 1.0 - Min(mddAbs, 0.99))
  }

  function Times3(a: real, b: real, c: real): real { a * b * c }

  lemma ScoresAreNotNegative(m: Metrics)
    ensures SharpeScore(m) >= 0.0 && RiskAdjustedScore(m) >= 0.0
    ensures RiskAdjustedScore(m) > 0.0 <==> m.sharpe > 0.0
  {
    var mddAbs := if m.mdd < 0.0 then -m.mdd else m.mdd;
    ProductOfThree(Max(m.sharpe, 0.0), 1.0 + Max(m.calmar, 0.0), 1.0 - Min(mddAbs, 0.99));
  }

  lemma ProductOfThree(a: real, b: real, c: real)
    requires a >= 0.0 && b > 0.0 && c > 0.0
    ensures Times3(a, b, c) >= 0.0 && (Times3(a, b, c) > 0.0 <==> a > 0.0)
  {
    SignOfProduct(a, b);
    SignOfProduct(a * b, c);
  }

  lemma SignOfProduct(x: real, c: real)
    requires c > 0.0
    ensures x >= 0.0 <==> x * c >= 0.0
    ensures x > 0.0 <==> x * c > 0.0
  {
  }

  ghost function Proportional(scores: Weights): Weights {
    var total := Sum(scores);
    if total < TINY then map k | k in scores :: Quotient(1.0, |scores| as real)
    else map k | k in scores :: Quotient(scores[k], total)
  }

  method Proportions(scores: Weights) returns (weights: Weights)
    ensures weights == Proportional(scores)
  {
    var total := SumValues(scores);
    if total < TINY {
      var n := if |scores| > 1 then |scores| else 1;
      return map k | k in scores :: Quotient(1.0, n as real);
    }
    return map k | k in scores :: Quotient(scores[k], total);
  }

  method SharpeWeights(metrics: map<string, Metrics>) returns (weights: Weights)
    ensures weights == Proportional(map k | k in metrics :: SharpeScore(metrics[k]))
  {
    var sharpes: Weights := map[];
    var rest := metrics.Keys;
    while rest != {}
      invariant rest <= metrics.Keys
      invariant sharpes == map k | k in metrics && k !in rest :: SharpeScore(metrics[k])
    {
      var name :| name in rest;
      sharpes := sharpes[name := SharpeScore(metrics[name])];
      rest := rest - {name};
    }
    assert sharpes == map k | k in metrics :: SharpeScore(metrics[k]);
    weights := Proportions(sharpes);
  }

  method RiskAdjustedWeights(metrics: map<string, Metrics>) returns (weights: Weights)
    ensures weights == Proportional(map k | k in metrics :: RiskAdjustedScore(metrics[k]))
  {
    var scores: Weights := map[];
    var rest := metrics.Keys;
    while rest != {}
      invariant rest <= metrics.Keys
      invariant scores == map k | k in metrics && k !in rest :: RiskAdjustedScore(metrics[k])
    {
      var name :| name in rest;
      scores := scores[name := RiskAdjustedScore(metrics[name])];
      rest := rest - {name};
    }
    assert scores == map k | k in metrics :: RiskAdjustedScore(metrics[k]);
    weights := Proportions(scores);
  }

  /** Both branches hand out exactly 1. */
  lemma ProportionalSumsToOne(scores: Weights)
    requires scores != map[]
    ensures Sum(Proportional(scores)) == 1.0
  {
    var weights := Proportional(scores);
    if Sum(scores) < TINY {
      var n := |scores|;
      var share := Quotient(1.0, n as real);
      assert |weights| == n by {
        assert weights.Keys == scores.Keys;
      }
      SumBounds(weights, share, share);
      TimesIsProduct(n, share);
      QuotientTimes(1.0, n as real);
    } else {
      SharesSumToOne(scores, weights);
    }
  }

  // ---- Constraints ----

  function Upper(s: string): string {
    seq(|s|, i requires 0 <= i < |s| => if 'a' <= s[i] <= 'z' then s[i] - 'a' + 'A' else s[i])
  }

  predicate OccursAt(s: string, part: string, i: nat) {
    i + |part| <= |s| && s[i..i + |part|] == part
  }

  predicate Contains(s: string, part: string) {
    exists i :: 0 <= i <= |s| && OccursAt(s, part, i)
  }

  predicate IsSentiment(name: string) {
    Contains(Upper(name), "SENTIMENT")
  }

  function Constrain(name: string, w: real): real {
    if w < NEGLIGIBLE then 0.0
    else
      var capped := Max(MIN_WEIGHT, Min(MAX_WEIGHT, w));
      if IsSentiment(name) then Min(capped, SENTIMENT_MAX) else capped
  }

  function Constrained(weights: Weights): Weights {
    map k | k in weights :: Constrain(k, weights[k])
  }

  method ApplyConstraints(weights: Weights) returns (constrained: Weights)
    ensures constrained == Constrained(weights)
  {
    constrained := map[];
    var rest := weights.Keys;
    while rest != {}
      invariant rest <= weights.Keys
      invariant constrained == map k | k in weights && k !in rest :: Constrain(k, weights[k])
    {
      var name :| name in rest;
      rest := rest - {name};
      var w := weights[name];
      if w < NEGLIGIBLE {
        constrained := constrained[name := 0.0];
        continue;
      }
      var capped := Max(MIN_WEIGHT, Min(MAX_WEIGHT, w));
      if IsSentiment(name) {
        capped := Min(capped, SENTIMENT_MAX);
      }
      constrained := constrained[name := capped];
    }
  }

  /** Every weight is 0 or between floor and cap; sentiment has a lower cap. */
  predicate WithinLimits(weights: Weights) {
    forall k :: k in weights ==>
      weights[k] == 0.0 || MIN_WEIGHT <= weights[k] <= (if IsSentiment(k) then SENTIMENT_MAX else MAX_WEIGHT)
  }

  /** Constraining reaches the limits, moves nothing that is within them, and is idempotent. */
  lemma ConstrainedWithinLimits(weights: Weights)
    ensures WithinLimits(Constrained(weights))
    ensures Constrained(weights) == weights <==> WithinLimits(weights)
    ensures Constrained(Constrained(weights)) == Constrained(weights)
    ensures forall k :: k in weights ==> (Constrained(weights)[k] == 0.0 <==> weights[k] < NEGLIGIBLE)
  {
    var c := Constrained(weights);
    if WithinLimits(weights) {
      forall k | k in weights
        ensures Constrain(k, weights[k]) == weights[k]
      {
      }
      assert c == weights;
    }
    assert Constrained(c) == c by {
      forall k | k in c
        ensures Constrain(k, c[k]) == c[k]
      {
      }
    }
  }

  // ---- Normalising ----

  function Active(weights: Weights): Weights {
    map k | k in weights && weights[k] > NEGLIGIBLE :: weights[k]
  }

  /** Round to the nearest integer, ties to the even one. */
  function RoundHalfEven(x: real): int {
    var low := x.Floor;
    var part := x - low as real;
    if part < 0.5 || (part == 0.5 && low % 2 == 0) then low else low + 1
  }

  function Round4(x: real): real {
    RoundHalfEven(x * 10000.0) as real / 10000.0
  }

  lemma Round4IsClose(x: real)
    ensures -HALF_STEP <= Round4(x) - x <= HALF_STEP
  {
  }

  /** The active weights' shares of their sum, before rounding. */
  ghost function Shares(weights: Weights): Weights
    requires Active(weights) != map[]
  {
    ActiveSumIsPositive(weights);
    map k | k in Active(weights) :: Quotient(weights[k], Sum(Active(weights)))
  }

  ghost function Normalized(weights: Weights): Weights {
    if Active(weights) == map[] then weights
    else
      map k | k in weights :: if weights[k] > NEGLIGIBLE then Round4(Shares(weights)[k]) else 0.0
  }

  /** So the source's branch for active weights with a tiny sum is never taken. */
  lemma ActiveSumIsPositive(weights: Weights)
    requires Active(weights) != map[]
    ensures Sum(Active(weights)) >= NEGLIGIBLE > TINY
  {
    var active := Active(weights);
    var k :| k in active;
    RemovalShrinks(active, k);
    SumWithout(active, k);
    assert forall j :: j in active - {k} ==> 0.0 <= (active - {k})[j];
    SumIsNotNegative(active - {k});
  }

  lemma {:induction false} SumIsNotNegative(m: Weights)
    requires forall k :: k in m ==> 0.0 <= m[k]
    ensures Sum(m) >= 0.0
    decreases |m|
  {
    if m != map[] {
      var k :| k in m;
      RemovalShrinks(m, k);
      SumWithout(m, k);
      SumIsNotNegative(m - {k});
    }
  }

  method Normalize(weights: Weights) returns (result: Weights)
    ensures result == Normalized(weights)
  {
    var active := map k | k in weights && weights[k] > NEGLIGIBLE :: weights[k];
    var total := SumValues(active);
    if active != map[] {
      ActiveSumIsPositive(weights);
    }
    if total < TINY {
      if active != map[] {
        assert false;
      }
      return weights;
    }
    result := map[];
    var rest := weights.Keys;
    while rest != {}
      invariant rest <= weights.Keys
      invariant result == map k | k in weights && k !in rest :: Normalized(weights)[k]
    {
      var k :| k in rest;
      rest := rest - {k};
      result := result[k := if weights[k] > NEGLIGIBLE then Round4(Quotient(weights[k], total)) else 0.0];
    }
  }

  lemma ActiveSharesSumToOne(weights: Weights)
    requires Active(weights) != map[]
    ensures Sum(Shares(weights)) == 1.0
  {
    ActiveSumIsPositive(weights);
    SharesSumToOne(Active(weights), Shares(weights));
  }

  const HALF_STEP := 0.00005

  predicate Rounds(shares: Weights, rounded: Weights) {
    rounded.Keys == shares.Keys && forall k :: k in shares ==> rounded[k] == Round4(shares[k])
  }

  lemma RoundedValue(shares: Weights, rounded: Weights, k: string)
    requires Rounds(shares, rounded) && k in shares
    ensures -HALF_STEP <= Get(rounded, k) - Get(shares, k) <= HALF_STEP
  {
    Round4IsClose(shares[k]);
  }

  /** Rounding every value moves the sum by at most a 20000th for each. */
  lemma RoundedSum(shares: Weights, rounded: Weights)
    requires Rounds(shares, rounded)
    ensures -Times(|shares|, HALF_STEP) <= Sum(rounded) - Sum(shares) <= Times(|shares|, HALF_STEP)
  {
    forall k | k in shares.Keys {
      RoundedValue(shares, rounded, k);
    }
    SumsClose(rounded, shares, shares.Keys, HALF_STEP);
  }

  /** Before rounding the shares sum to 1; four digits move the sum by at most n / 20000. */
  lemma NormalizedSumsToOne(weights: Weights)
    requires Active(weights) != map[]
    ensures Sum(Shares(weights)) == 1.0
    ensures var n := |Active(weights)| as real / 20000.0; 1.0 - n <= Sum(Normalized(weights)) <= 1.0 + n
  {
    var shares := Shares(weights);
    var rounded := map k | k in shares :: Round4(shares[k]);
    ActiveSharesSumToOne(weights);
    RoundedSum(shares, rounded);
    TimesIsProduct(|shares|, HALF_STEP);
    SumOfSupport(Normalized(weights), rounded);
    assert |shares| == |Active(weights)| by {
      assert shares.Keys == Active(weights).Keys;
    }
  }

  /** With n active strategies within the limits, a share before rounding is between
      1 / (8n - 7) and 8 / (n + 7). */
  lemma ShareBounds(weights: Weights, k: string)
    requires WithinLimits(weights) && k in Active(weights)
    ensures var n := |Active(weights)| as real;
            1.0 / (8.0 * n - 7.0) <= Shares(weights)[k] <= 8.0 / (n + 7.0)
  {
    var active := Active(weights);
    var n := |active|;
    RemovalShrinks(active, k);
    SumWithout(active, k);
    SumBounds(active - {k}, MIN_WEIGHT, MAX_WEIGHT);
    TimesIsProduct(n - 1, MIN_WEIGHT);
    TimesIsProduct(n - 1, MAX_WEIGHT);
    ActiveSumIsPositive(weights);
    BoundShare(weights[k], Sum(active - {k}), n as real);
  }

  lemma BoundShare(v: real, rest: real, n: real)
    requires n >= 1.0 && MIN_WEIGHT <= v <= MAX_WEIGHT
    requires (n - 1.0) * MIN_WEIGHT <= rest <= (n - 1.0) * MAX_WEIGHT
    ensures v + rest > 0.0 && 1.0 / (8.0 * n - 7.0) <= Quotient(v, v + rest) <= 8.0 / (n + 7.0)
  {
    BoundLow(v, rest, n);
    BoundHigh(v, rest, n);
    CompareQuotients(1.0, 8.0 * n - 7.0, v, v + rest);
    CompareQuotients(v, v + rest, 8.0, n + 7.0);
  }

  lemma BoundLow(v: real, rest: real, n: real)
    requires n >= 1.0 && MIN_WEIGHT <= v && rest <= (n - 1.0) * MAX_WEIGHT
    ensures v + rest <= v * (8.0 * n - 7.0)
  {
    assert (v - MIN_WEIGHT) * (n - 1.0) >= 0.0;
  }

  lemma BoundHigh(v: real, rest: real, n: real)
    requires n >= 1.0 && v <= MAX_WEIGHT && (n - 1.0) * MIN_WEIGHT <= rest
    ensures v * (n + 7.0) <= 8.0 * (v + rest)
  {
    assert (MAX_WEIGHT - v) * (n - 1.0) >= 0.0;
  }

  lemma CompareQuotients(a: real, b: real, c: real, d: real)
    requires b > 0.0 && d > 0.0
    ensures Quotient(a, b) <= Quotient(c, d) <==> a * d <= c * b
  {
    var p, q := Quotient(a, b), Quotient(c, d);
    QuotientTimes(a, b);
    QuotientTimes(c, d);
    ScaledOrder(p, q, b, d);
    assert p * b * d == a * d && q * d * b == c * b;
  }

  lemma ScaledOrder(p: real, q: real, b: real, d: real)
    requires b > 0.0 && d > 0.0
    ensures p <= q <==> p * b * d <= q * d * b
  {
    assert q * d * b - p * b * d == (q - p) * (b * d);
    SignOfProduct(q - p, b * d);
  }

  /** A share keeps to the 40% exactly if its weight is at most that part of the constrained
      total, and to the 5% if it is at least that part: for a weight at the cap, if the total
      is 1 or more, and for one at the floor, if it is 1 or less. */
  lemma LimitsSurviveNormalizing(weights: Weights, k: string)
    requires k in Active(weights)
    ensures Shares(weights)[k] <= MAX_WEIGHT <==> weights[k] <= MAX_WEIGHT * Sum(Active(weights))
    ensures Shares(weights)[k] >= MIN_WEIGHT <==> weights[k] >= MIN_WEIGHT * Sum(Active(weights))
    ensures weights[k] == MAX_WEIGHT ==> (Shares(weights)[k] <= MAX_WEIGHT <==> Sum(Active(weights)) >= 1.0)
    ensures weights[k] == MIN_WEIGHT ==> (Shares(weights)[k] >= MIN_WEIGHT <==> Sum(Active(weights)) <= 1.0)
    ensures Sum(Active(weights)) >= 1.0 ==> Shares(weights)[k] <= weights[k]
    ensures Sum(Active(weights)) <= 1.0 ==> Shares(weights)[k] >= weights[k]
  {
    ActiveSumIsPositive(weights);
    var v, total := weights[k], Sum(Active(weights));
    CompareQuotients(v, total, v, 1.0);
    CompareQuotients(v, 1.0, v, total);
    QuotientIsUnique(v, v, 1.0);
    CompareQuotients(v, total, MAX_WEIGHT, 1.0);
    QuotientIsUnique(MAX_WEIGHT, MAX_WEIGHT, 1.0);
    CompareQuotients(MIN_WEIGHT, 1.0, v, total);
    QuotientIsUnique(MIN_WEIGHT, MIN_WEIGHT, 1.0);
    CompareScaled(v, total);
  }

  lemma CompareScaled(v: real, total: real)
    requires v > 0.0
    ensures v <= v * total <==> total >= 1.0
    ensures v * total <= v <==> total <= 1.0
  {
    SignOfProduct(total - 1.0, v);
    SignOfProduct(1.0 - total, v);
  }

  /** Two strategies at floor and cap end at one ninth and eight ninths: both bounds of
      `ShareBounds` are met and the 40% cap is not. */
  lemma CapIsNotKept()
    ensures var w := map["A" := MIN_WEIGHT, "B" := MAX_WEIGHT];
            && Constrained(w) == w && Active(w) == w
            && Shares(w)["A"] == 1.0 / 9.0 && Shares(w)["B"] == 8.0 / 9.0 && Normalized(w)["B"] == 0.8889
  {
    var w := map["A" := MIN_WEIGHT, "B" := MAX_WEIGHT];
    NotSentiment("A");
    NotSentiment("B");
    assert Active(w) == w;
    SumWithout(w, "A");
    SumWithout(w - {"A"}, "B");
    assert w - {"A"} - {"B"} == map[];
    assert Sum(w) == 0.45;
  }

  lemma NotSentiment(name: string)
    requires |name| < 9
    ensures !IsSentiment(name)
  {
  }

  // ---- From scores to shares ----

  /** Up to a million strategies, some weight survives, so the shares of the constrained
      proportional weights sum to 1. */
  lemma OptimizedSharesSumToOne(scores: Weights)
    requires 0 < |scores| <= 1000000
    ensures var c := Constrained(Proportional(scores));
            Active(c) != map[] && WithinLimits(c) && Sum(Shares(c)) == 1.0
  {
    var w := Proportional(scores);
    var c := Constrained(w);
    ProportionalSumsToOne(scores);
    ConstrainedWithinLimits(w);
    assert w.Keys == scores.Keys && |w| == |scores|;
    if forall k :: k in w ==> w[k] < NEGLIGIBLE {
      NegligibleSum(w);
      TimesIsProduct(|w|, NEGLIGIBLE);
      assert false;
    }
    var k :| k in w && w[k] >= NEGLIGIBLE;
    assert c[k] > NEGLIGIBLE;
    assert k in Active(c);
    NormalizedSumsToOne(c);
  }

  lemma {:induction false} NegligibleSum(w: Weights)
    requires forall k :: k in w ==> w[k] < NEGLIGIBLE
    ensures Sum(w) <= Times(|w|, NEGLIGIBLE) && (w != map[] ==> Sum(w) < Times(|w|, NEGLIGIBLE))
    decreases |w|
  {
    if w != map[] {
      var k :| k in w;
      RemovalShrinks(w, k);
      SumWithout(w, k);
      NegligibleSum(w - {k});
    }
  }

  // ---- Smoothing ----

  const SMOOTHING_ALPHA := 0.3

  function Smoothed(oldWeights: Weights, newWeights: Weights): Weights {
    Combined(newWeights, oldWeights, SMOOTHING_ALPHA, 1.0 - SMOOTHING_ALPHA)
  }

  method SmoothWeights(oldWeights: Weights, newWeights: Weights) returns (smoothed: Weights)
    ensures smoothed == Smoothed(oldWeights, newWeights)
  {
    var allKeys := oldWeights.Keys + newWeights.Keys;
    smoothed := map[];
    var rest := allKeys;
    while rest != {}
      invariant rest <= allKeys
      invariant smoothed == map k | k in allKeys && k !in rest :: Smoothed(oldWeights, newWeights)[k]
    {
      var k :| k in rest;
      rest := rest - {k};
      smoothed := smoothed[k := Combine(SMOOTHING_ALPHA, Get(newWeights, k), 1.0 - SMOOTHING_ALPHA, Get(oldWeights, k))];
    }
  }

  /** A smoothed weight lies between the old and the new one, three tenths of the way, and
      smoothing keeps a common sum. */
  lemma SmoothingIsAverage(oldWeights: Weights, newWeights: Weights)
    ensures forall k :: k in Smoothed(oldWeights, newWeights) ==>
              Smoothed(oldWeights, newWeights)[k] - Get(oldWeights, k) == 0.3 * (Get(newWeights, k) - Get(oldWeights, k))
    ensures Sum(oldWeights) == Sum(newWeights) ==> Sum(Smoothed(oldWeights, newWeights)) == Sum(newWeights)
  {
    SumOfCombined(newWeights, oldWeights, SMOOTHING_ALPHA, 1.0 - SMOOTHING_ALPHA);
  }

  // ---- The average over windows ----

  /** 2 ^ -k */
  function Halved(k: nat): real {
    if k == 0 then 1.0 else Halved(k - 1) / 2.0
  }

  /** The windows' weights summed up, each older window counting half of the next. */
  function Discounted(series: seq<Weights>): Weights {
    if series == [] then map[] else Combined(Discounted(series[..|series| - 1]), series[|series| - 1], 0.5, 1.0)
  }

  /** The same for n windows with the same value. */
  function Repeated(n: nat, x: real): real {
    if n == 0 then 0.0 else 0.5 * Repeated(n - 1, x) + x
  }

  lemma {:induction false} RepeatedOnes(n: nat)
    ensures 0.0 <= Repeated(n, 1.0) < 2.0 && (n > 0 ==> Repeated(n, 1.0) >= 1.0)
  {
    if n > 0 {
      RepeatedOnes(n - 1);
    }
  }

  lemma {:induction false} RepeatedIsProduct(n: nat, x: real)
    ensures Repeated(n, x) == Repeated(n, 1.0) * x
  {
    if n > 0 {
      RepeatedIsProduct(n - 1, x);
      AddOne(Repeated(n - 1, 1.0), x);
    }
  }

  lemma AddOne(t: real, x: real)
    ensures (0.5 * t + 1.0) * x == 0.5 * (t * x) + x
  {
  }

  function TotalTime(n: nat): (r: real)
    requires n > 0
    ensures 1.0 <= r < 2.0
  {
    RepeatedOnes(n);
    Repeated(n, 1.0)
  }

  function Averaged(series: seq<Weights>): Weights {
    if series == [] then map[]
    else map k | k in Discounted(series) :: Quotient(Discounted(series)[k], TotalTime(|series|))
  }

  lemma DiscountedAt(series: seq<Weights>, n: nat, key: string)
    requires n < |series|
    ensures Get(Discounted(series[..n + 1]), key) == 0.5 * Get(Discounted(series[..n]), key) + Get(series[n], key)
  {
    assert series[..n + 1][..n] == series[..n];
  }

  lemma NextTerm(h: real, x: real, y: real)
    ensures h / 2.0 * x + h * y == h * (0.5 * x + y)
  {
  }

  method SumOfTimes(timeWeights: seq<real>) returns (total: real)
    requires timeWeights != []
    requires forall i :: 0 <= i < |timeWeights| ==> timeWeights[i] == Halved(|timeWeights| - 1 - i)
    ensures total == TotalTime(|timeWeights|)
  {
    var n := |timeWeights|;
    total := 0.0;
    for i := 0 to n
      invariant total == Halved(n - i) * Repeated(i, 1.0)
    {
      NextTerm(Halved(n - 1 - i), Repeated(i, 1.0), 1.0);
      total := total + timeWeights[i];
    }
  }

  method TimeWeightedAverage(series: seq<Weights>) returns (avg: Weights)
    ensures avg == Averaged(series)
  {
    if series == [] {
      return map[];
    }
    var n := |series|;
    var timeWeights := seq(n, i requires 0 <= i < n => Halved(n - 1 - i));
    var totalTw := SumOfTimes(timeWeights);
    var allKeys := {};
    for i := 0 to n
      invariant allKeys == Discounted(series[..i]).Keys
    {
      assert series[..i + 1][..i] == series[..i];
      allKeys := allKeys + series[i].Keys;
    }
    assert series[..n] == series;
    avg := map[];
    var rest := allKeys;
    while rest != {}
      invariant rest <= allKeys
      invariant avg == map k | k in allKeys && k !in rest :: Averaged(series)[k]
    {
      var key :| key in rest;
      rest := rest - {key};
      var weightedSum := WeightedSum(timeWeights, series, key);
      avg := avg[key := Quotient(weightedSum, totalTw)];
    }
  }

  method WeightedSum(timeWeights: seq<real>, series: seq<Weights>, key: string) returns (total: real)
    requires |timeWeights| == |series|
    requires forall i :: 0 <= i < |series| ==> timeWeights[i] == Halved(|series| - 1 - i)
    ensures total == Get(Discounted(series), key)
  {
    var n := |series|;
    total := 0.0;
    for i := 0 to n
      invariant total == Halved(n - i) * Get(Discounted(series[..i]), key)
    {
      DiscountedAt(series, i, key);
      NextTerm(Halved(n - 1 - i), Get(Discounted(series[..i]), key), Get(series[i], key));
      total := total + timeWeights[i] * Get(series[i], key);
    }
    assert series[..n] == series;
  }

  // ---- What the average keeps ----

  predicate Within(series: seq<Weights>, key: string, low: real, high: real) {
    forall i :: 0 <= i < |series| ==> low <= Get(series[i], key) <= high
  }

  lemma {:induction false} DiscountedBounds(series: seq<Weights>, key: string, low: real, high: real)
    requires Within(series, key, low, high)
    ensures Repeated(|series|, low) <= Get(Discounted(series), key) <= Repeated(|series|, high)
  {
    if series != [] {
      var n := |series| - 1;
      DiscountedBounds(series[..n], key, low, high);
      DiscountedAt(series, n, key);
      assert series[..n + 1] == series;
    }
  }

  /** Between both ends, and nearer to `newest` than to either. */
  predicate PastMiddles(avg: real, newest: real, low: real, high: real) {
    && low <= avg <= high
    && (newest > low ==> avg > (low + newest) / 2.0)
    && (newest < high ==> avg < (high + newest) / 2.0)
  }

  /** A key's average stays within the windows' range, and the newest window carries more
      than half: the average is past the middle between either end of the range and it. */
  lemma NewestWindowOutweighs(series: seq<Weights>, key: string, low: real, high: real)
    requires series != [] && key in Discounted(series) && Within(series, key, low, high)
    ensures PastMiddles(Averaged(series)[key], Get(series[|series| - 1], key), low, high)
  {
    var n := |series| - 1;
    DiscountedBounds(series[..n], key, low, high);
    DiscountedAt(series, n, key);
    assert series[..n + 1] == series;
    RepeatedOnes(n);
    PastMiddleAfter(n, Get(Discounted(series[..n]), key), Get(series[n], key), low, high);
  }

  lemma PastMiddleAfter(n: nat, rest: real, newest: real, low: real, high: real)
    requires Repeated(n, low) <= rest <= Repeated(n, high) && low <= newest <= high
    ensures PastMiddles(Quotient(0.5 * rest + newest, TotalTime(n + 1)), newest, low, high)
  {
    RepeatedOnes(n);
    RepeatedIsProduct(n, low);
    RepeatedIsProduct(n, high);
    QuotientPastMiddle(Repeated(n, 1.0), rest, newest, low, high);
  }

  lemma QuotientPastMiddle(t: real, rest: real, newest: real, low: real, high: real)
    requires 0.0 <= t < 2.0 && t * low <= rest <= t * high && low <= newest <= high
    ensures PastMiddles(Quotient(0.5 * rest + newest, 0.5 * t + 1.0), newest, low, high)
  {
    var total := 0.5 * t + 1.0;
    var avg := Quotient(0.5 * rest + newest, total);
    QuotientTimes(0.5 * rest + newest, total);
    AddOne(t, low);
    AddOne(t, high);
    PastMiddle(avg - low, newest - low, total, 0.5 * (rest - t * low));
    PastMiddle(high - avg, high - newest, total, 0.5 * (t * high - rest));
  }

  lemma PastMiddle(x: real, d: real, total: real, more: real)
    requires 1.0 <= total < 2.0 && d >= 0.0 && more >= 0.0 && x * total == d + more
    ensures x >= 0.0 && (d > 0.0 ==> x > d / 2.0)
  {
    SignOfProduct(x, total);
    SignOfProduct(x, 2.0 - total);
  }

  lemma {:induction false} DiscountedSum(series: seq<Weights>, s: real)
    requires forall i :: 0 <= i < |series| ==> Sum(series[i]) == s
    ensures Sum(Discounted(series)) == Repeated(|series|, s)
  {
    if series != [] {
      var n := |series| - 1;
      DiscountedSum(series[..n], s);
      SumOfCombined(Discounted(series[..n]), series[n], 0.5, 1.0);
    }
  }

  /** If every window's weights have the same sum, so has the average. */
  lemma AverageKeepsSum(series: seq<Weights>, s: real)
    requires series != [] && forall i :: 0 <= i < |series| ==> Sum(series[i]) == s
    ensures Sum(Averaged(series)) == s
  {
    DiscountedSum(series, s);
    SumOfQuotients(Discounted(series), Averaged(series), TotalTime(|series|));
    QuotientOfRepeated(|series|, s);
  }

  lemma QuotientOfRepeated(n: nat, s: real)
    requires n > 0
    ensures Quotient(Repeated(n, s), TotalTime(n)) == s
  {
    RepeatedIsProduct(n, s);
    QuotientIsUnique(s, Repeated(n, s), TotalTime(n));
  }

  // ---- The whole optimization ----

  datatype Scheme = Sharpe | RiskAdjusted

  function Scores(metrics: map<string, Metrics>, scheme: Scheme): Weights {
    map k | k in metrics :: if scheme.RiskAdjusted? then RiskAdjustedScore(metrics[k]) else SharpeScore(metrics[k])
  }

  ghost function Optimized(scores: Weights, current: Weights): Weights {
    if scores == map[] then current
    else
      var constrained := Constrained(Proportional(scores));
      Normalized(if current != map[] then Smoothed(current, constrained) else constrained)
  }

  method Optimize(metrics: map<string, Metrics>, scheme: Scheme, current: Weights) returns (final: Weights)
    ensures final == Optimized(Scores(metrics, scheme), current)
  {
    if metrics == map[] {
      return current;
    }
    var raw: Weights;
    if scheme.RiskAdjusted? {
      raw := RiskAdjustedWeights(metrics);
      assert Scores(metrics, scheme) == map k | k in metrics :: RiskAdjustedScore(metrics[k]);
    } else {
      raw := SharpeWeights(metrics);
      assert Scores(metrics, scheme) == map k | k in metrics :: SharpeScore(metrics[k]);
    }
    assert Scores(metrics, scheme).Keys == metrics.Keys;
    var weights := ApplyConstraints(raw);
    if current != map[] {
      weights := SmoothWeights(current, weights);
    }
    final := Normalize(weights);
  }

  /** Without weights to smooth with, up to a million strategies get weights that sum to 1, up
      to the rounding of each. */
  lemma OptimizedSumsToOne(scores: Weights)
    requires 0 < |scores| <= 1000000
    ensures var n := |scores| as real / 20000.0; 1.0 - n <= Sum(Optimized(scores, map[])) <= 1.0 + n
  {
    var c := Constrained(Proportional(scores));
    OptimizedSharesSumToOne(scores);
    NormalizedSumsToOne(c);
    assert |Active(c)| <= |scores| by {
      assert Active(c).Keys <= scores.Keys;
      SubsetSize(Active(c).Keys, scores.Keys);
    }
  }

  lemma {:induction false} SubsetSize(a: set<string>, b: set<string>)
    requires a <= b
    ensures |a| <= |b|
  {
    if a != {} {
      var x := AnElement(a);
      SubsetSize(a - {x}, b - {x});
    }
  }

  /** The weights of a walk-forward run, from those of its windows. */
  method CombineWindows(windowWeights: seq<Weights>) returns (final: Weights)
    ensures final == if windowWeights == [] then map[] else Normalized(Constrained(Averaged(windowWeights)))
  {
    if windowWeights == [] {
      return map[];
    }
    var avg := TimeWeightedAverage(windowWeights);
    var constrained := ApplyConstraints(avg);
    final := Normalize(constrained);
  }

  // ---- What the numbers are ----

  /** A non-negative Sharpe ratio is its own score; the composite score takes the drawdown's
      part off it, up to 99%, and adds to the rest what the Calmar ratio multiplies. */
  lemma ScoreParts(m: Metrics)
    ensures m.sharpe >= 0.0 ==> SharpeScore(m) == m.sharpe
    ensures var plain := m.(calmar := 0.0, mdd := 0.0); RiskAdjustedScore(plain) == SharpeScore(m)
    ensures var noCalmar := m.(calmar := 0.0);
            && (m.calmar <= 0.0 ==> RiskAdjustedScore(m) == RiskAdjustedScore(noCalmar))
            && (m.calmar >= 0.0 ==> RiskAdjustedScore(m) - RiskAdjustedScore(noCalmar) == m.calmar * RiskAdjustedScore(noCalmar))
            && (-0.99 <= m.mdd <= 0.99 ==>
                  SharpeScore(m) - RiskAdjustedScore(noCalmar) == (if m.mdd < 0.0 then -m.mdd else m.mdd) * SharpeScore(m))
            && (m.mdd < -0.99 || m.mdd > 0.99 ==> RiskAdjustedScore(noCalmar) == 0.01 * SharpeScore(m))
  {
    var s, c := Max(m.sharpe, 0.0), Max(m.calmar, 0.0);
    var left := 1.0 - Min(if m.mdd < 0.0 then -m.mdd else m.mdd, 0.99);
    ExpandTimes3(s, 0.0, left);
    ExpandTimes3(s, c, left);
    ExpandTimes3(s, 0.0, 1.0);
    TakeOff(s, left);
  }

  lemma ExpandTimes3(s: real, c: real, left: real)
    ensures Times3(s, 1.0 + c, left) == Times3(s, 1.0, left) + c * Times3(s, 1.0, left)
    ensures Times3(s, 1.0 + 0.0, left) == s * left
    ensures Times3(s, 1.0, 1.0) == s
  {
  }

  lemma TakeOff(s: real, left: real)
    ensures s - s * left == (1.0 - left) * s
  {
  }

  /** Weights stand to each other as the scores, or are all equal if these sum to next to
      nothing. */
  lemma ProportionalKeepsRatios(scores: Weights, a: string, b: string)
    requires a in scores && b in scores
    ensures var w := Proportional(scores);
            if Sum(scores) < TINY then w[a] == w[b] else w[a] * scores[b] == w[b] * scores[a]
  {
    if Sum(scores) >= TINY {
      QuotientTimes(scores[a], Sum(scores));
      QuotientTimes(scores[b], Sum(scores));
      CrossProducts(Quotient(scores[a], Sum(scores)), Quotient(scores[b], Sum(scores)), Sum(scores), scores[a], scores[b]);
    }
  }

  lemma CrossProducts(p: real, q: real, total: real, x: real, y: real)
    requires p * total == x && q * total == y
    ensures p * y == q * x
  {
    assert p * (q * total) == q * (p * total);
  }

  function Cap(name: string): real {
    if IsSentiment(name) then SENTIMENT_MAX else MAX_WEIGHT
  }

  /** A weight that counts is moved to the nearest one between floor and cap. */
  lemma ConstrainIsNearest(name: string, w: real, x: real)
    requires w >= NEGLIGIBLE && MIN_WEIGHT <= x <= Cap(name)
    ensures var c := Constrain(name, w);
            && MIN_WEIGHT <= c <= Cap(name)
            && (c == x || (if c < w then w - c else c - w) < (if x < w then w - x else x - w))
  {
  }

  /** Distance to an integer. */
  function Off(x: real, k: int): real {
    if k as real < x then x - k as real else k as real - x
  }

  /** Rounding goes to a nearest integer, and of two to the even one. */
  lemma RoundHalfEvenIsNearest(x: real, k: int)
    ensures var r := RoundHalfEven(x);
            Off(x, r) < Off(x, k) || (Off(x, r) == Off(x, k) && (k == r || r % 2 == 0))
  {
    var low := x.Floor;
    FloorAround(x, low);
    if k < low {
      assert k as real <= low as real - 1.0;
    } else if k > low + 1 {
      assert k as real >= low as real + 2.0;
    }
    NextIsEven(low);
  }

  lemma FloorAround(x: real, low: int)
    requires low == x.Floor
    ensures low as real <= x < low as real + 1.0 == (low + 1) as real
  {
  }

  lemma NextIsEven(low: int)
    ensures low % 2 != 0 ==> (low + 1) % 2 == 0
  {
  }

  /** A share is the active weight's part of the active total. */
  lemma ShareOfTotal(weights: Weights, k: string)
    requires k in Active(weights)
    ensures Shares(weights)[k] * Sum(Active(weights)) == weights[k]
  {
    ActiveSumIsPositive(weights);
    QuotientTimes(weights[k], Sum(Active(weights)));
  }

  function OfDigits(digits: int): real {
    digits as real / 10000.0
  }

  lemma Round4HasDigits(x: real) returns (digits: int)
    ensures Round4(x) == OfDigits(digits)
  {
    digits := RoundHalfEven(x * 10000.0);
  }

  /** A final weight is the share rounded to four digits, at most half a step from it; what is
      not active gets nothing. */
  lemma NormalizedWeight(weights: Weights, k: string) returns (digits: int)
    requires Active(weights) != map[] && k in weights
    ensures weights[k] <= NEGLIGIBLE ==> Normalized(weights)[k] == 0.0
    ensures weights[k] > NEGLIGIBLE ==>
              && k in Shares(weights) && Normalized(weights)[k] == OfDigits(digits)
              && -HALF_STEP <= Normalized(weights)[k] - Shares(weights)[k] <= HALF_STEP
  {
    if weights[k] > NEGLIGIBLE {
      var share := Shares(weights)[k];
      Round4IsClose(share);
      digits := Round4HasDigits(share);
    } else {
      digits := 0;
    }
  }

  /** With current weights that are not negative the sum stays 1 up to rounding, too. */
  lemma SmoothedSumsToOne(scores: Weights, current: Weights)
    requires 0 < |scores| <= 1000000 && current != map[]
    requires forall k :: k in current ==> current[k] >= 0.0
    ensures var n := |scores.Keys + current.Keys| as real / 20000.0;
            1.0 - n <= Sum(Optimized(scores, current)) <= 1.0 + n
  {
    var c := Constrained(Proportional(scores));
    OptimizedSharesSumToOne(scores);
    var k := AnElement(Active(c).Keys);
    var smoothed := Smoothed(current, c);
    assert MIN_WEIGHT <= c[k];
    assert smoothed[k] >= 0.3 * MIN_WEIGHT;
    assert k in Active(smoothed);
    NormalizedSumsToOne(smoothed);
    assert c.Keys == scores.Keys;
    assert Active(smoothed).Keys <= scores.Keys + current.Keys;
    SubsetSize(Active(smoothed).Keys, scores.Keys + current.Keys);
  }

  // ---- The time weights ----

  /** x * 2 ^ k */
  function Doubled(k: nat, x: real): real {
    if k == 0 then x else 2.0 * Doubled(k - 1, x)
  }

  lemma {:induction false} DoubledAdds(k: nat, x: real, y: real)
    ensures Doubled(k, x + y) == Doubled(k, x) + Doubled(k, y)
    ensures k > 0 ==> Doubled(k, 0.5 * x) == Doubled(k - 1, x)
  {
    if k > 0 {
      DoubledAdds(k - 1, x, y);
      if k == 1 {
        assert Doubled(0, 0.5 * x) == 0.5 * x;
      }
    }
  }

  function Part(a: real, x: real): real { a * x }

  lemma {:induction false} DoubledScales(k: nat, a: real, x: real)
    ensures Doubled(k, Part(a, x)) == Part(a, Doubled(k, x))
  {
    if k > 0 {
      DoubledScales(k - 1, a, x);
      TwicePart(a, Doubled(k - 1, x));
    }
  }

  lemma TwicePart(a: real, d: real)
    ensures 2.0 * Part(a, d) == Part(a, 2.0 * d)
  {
  }

  /** The values of a key weighted by 1, 2, 4 and so on, oldest window first. */
  function PowerSum(series: seq<Weights>, key: string): real {
    if series == [] then 0.0
    else PowerSum(series[..|series| - 1], key) + Doubled(|series| - 1, Get(series[|series| - 1], key))
  }

  lemma {:induction false} DiscountedIsPowerSum(series: seq<Weights>, key: string)
    requires series != []
    ensures Doubled(|series| - 1, Get(Discounted(series), key)) == PowerSum(series, key)
  {
    var n := |series| - 1;
    assert series[..n + 1] == series;
    DiscountedAt(series, n, key);
    if n == 0 {
      assert series[..0] == [];
    } else {
      DiscountedIsPowerSum(series[..n], key);
      var before := Get(Discounted(series[..n]), key);
      DoubledAdds(n, before, 0.0);
      DoubledAdds(n, 0.5 * before, Get(series[n], key));
    }
  }

  lemma {:induction false} RepeatedIsPower(n: nat)
    requires n > 0
    ensures Doubled(n - 1, Repeated(n, 1.0)) == Doubled(n, 1.0) - 1.0
  {
    if n > 1 {
      RepeatedIsPower(n - 1);
      DoubledAdds(n - 1, Repeated(n - 1, 1.0), 0.0);
      DoubledAdds(n - 1, 0.5 * Repeated(n - 1, 1.0), 1.0);
    }
  }

  lemma PartOfQuotient(d: real, t: real)
    requires t > 0.0
    ensures Part(Quotient(d, t), t) == d
  {
  }

  lemma AverageTimesPower(n: nat, avg: real, d: real)
    requires n > 0 && avg == Quotient(d, TotalTime(n))
    ensures Part(avg, Doubled(n, 1.0) - 1.0) == Doubled(n - 1, d)
  {
    RepeatedIsPower(n);
    PartOfQuotient(d, TotalTime(n));
    DoubledScales(n - 1, avg, TotalTime(n));
  }

  /** The average over n windows is the one with weights 1, 2, 4 and so on, which sum to
      2^n - 1: every window counts twice as much as the one before it. */
  lemma AverageIsPowerWeighted(series: seq<Weights>, key: string)
    requires series != [] && key in Discounted(series)
    ensures Part(Averaged(series)[key], Doubled(|series|, 1.0) - 1.0) == PowerSum(series, key)
  {
    DiscountedIsPowerSum(series, key);
    AverageTimesPower(|series|, Averaged(series)[key], Get(Discounted(series), key));
  }
}
