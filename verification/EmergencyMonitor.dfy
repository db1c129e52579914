/** The emergency monitor's numbers: the portfolio's loss, the threshold it is judged by, and
    the defensive sales, over exact rationals.
  */
module EmergencyMonitoring {
  import opened Common

  datatype Position = Position(ticker: string, quantity: int, avgPrice: real, price: real)

  function Cost(p: Position): real { p.quantity as real * p.avgPrice }

  function Worth(p: Position): real { p.quantity as real * p.price }

  function PnlPercent(p: Position): real {
    if Cost(p) <= 0.0 then 0.0 else (Worth(p) - Cost(p)) / Cost(p)
  }

  function Sum(ps: seq<Position>, f: Position -> real): real {
    if ps == [] then 0.0 else Sum(ps[..|ps| - 1], f) + f(ps[|ps| - 1])
  }

  function LossPercent(ps: seq<Position>): real {
    if Sum(ps, Cost) > 0.0 then Change(Sum(ps, Cost), Sum(ps, Worth)) else 0.0
  }

  function Change(cost: real, worth: real): real
    requires cost > 0.0
  {
    (worth - cost) / cost
  }

  // ---- Value-weighted return against loss ----

  /** A position's return weighted by its share of `total`. */
  function WeightedPnl(total: real): Position -> real
    requires total > 0.0
  {
    p => PnlPercent(p) * (Worth(p) / total)
  }

  function WeightedReturn(ps: seq<Position>, total: real): real
    requires total > 0.0
  {
    Sum(ps, WeightedPnl(total))
  }

  /** No position has a negative value, and one that cost nothing is worth nothing. */
  predicate PaidFor(ps: seq<Position>) {
    forall p :: p in ps ==> Worth(p) >= 0.0 && (Cost(p) > 0.0 || (Cost(p) == 0.0 && Worth(p) == 0.0))
  }

  /** Worth squared over cost. */
  function SquareOverCost(p: Position): real {
    if Cost(p) > 0.0 then Worth(p) / Cost(p) * Worth(p) else 0.0
  }

  /** Adding one term, with t = w / c, to the inequality sum(w * w / c) * sum(c) >= sum(w) ^ 2. */
  lemma OneMoreTerm(s: real, cost: real, worth: real, t: real, c: real, w: real)
    requires cost >= 0.0 && c > 0.0 && s >= 0.0 && s * cost >= worth * worth
    requires w == t * c && (cost == 0.0 ==> worth == 0.0)
    ensures (s + t * w) * (cost + c) >= (worth + w) * (worth + w)
  {
    var gap := s + t * t * cost - 2.0 * t * worth;
    assert gap >= 0.0 by {
      if cost > 0.0 {
        var d := worth - t * cost;
        assert d * d >= 0.0;
        assert gap * cost == (s * cost - worth * worth) + d * d;
        SignOfFactor(gap, cost);
      }
    }
    assert gap * c >= 0.0;
    assert (s + t * w) * (cost + c) == s * cost + w * w + s * c + t * t * c * cost;
    assert (worth + w) * (worth + w) == worth * worth + w * w + 2.0 * t * worth * c;
    assert gap * c == s * c + t * t * c * cost - 2.0 * t * worth * c;
  }

  /** One term of the inequality: q is w * w / c, or nothing for a position without cost. */
  predicate IsTerm(q: real, c: real, w: real) {
    w >= 0.0 && (if c > 0.0 then q == w / c * w else q == c == w == 0.0)
  }

  /** s * c >= w * w, for sums without negative terms. */
  predicate Dominates(s: real, c: real, w: real) {
    s >= 0.0 && c >= 0.0 && (c == 0.0 ==> w == 0.0) && KeepsInequality(s, c, w)
  }

  predicate KeepsInequality(s: real, c: real, w: real) {
    s * c >= w * w
  }

  lemma CauchyStep(s: real, cost: real, worth: real, q: real, c: real, w: real)
    requires Dominates(s, cost, worth) && IsTerm(q, c, w)
    ensures Dominates(s + q, cost + c, worth + w)
  {
    if c > 0.0 {
      var t := w / c;
      TimesBack(w, c);
      SignOfFactor(t, c);
      OneMoreTerm(s, cost, worth, t, c, w);
    }
  }

  lemma {:induction false} CauchySums(ps: seq<Position>, q: Position -> real, c: Position -> real, w: Position -> real)
    requires forall p :: p in ps ==> IsTerm(q(p), c(p), w(p))
    ensures Dominates(Sum(ps, q), Sum(ps, c), Sum(ps, w))
  {
    if ps != [] {
      var front, p := ps[..|ps| - 1], ps[|ps| - 1];
      CauchySums(front, q, c, w);
      CauchyStep(Sum(front, q), Sum(front, c), Sum(front, w), q(p), c(p), w(p));
    }
  }

  lemma {:induction false} SumOfDifferences(ps: seq<Position>, f: Position -> real, g: Position -> real, h: Position -> real, k: real)
    requires forall p :: p in ps ==> f(p) * k == g(p) - h(p)
    ensures Sum(ps, f) * k == Sum(ps, g) - Sum(ps, h)
  {
    if ps != [] {
      var front, p := ps[..|ps| - 1], ps[|ps| - 1];
      SumOfDifferences(front, f, g, h, k);
      Distribute(Sum(front, f), f(p), k);
    }
  }

  lemma Distribute(a: real, b: real, k: real)
    ensures (a + b) * k == a * k + b * k
  {
  }

  /** The worth of a position without cost, and of one with it. */
  function FreeWorth(p: Position): real {
    if Cost(p) > 0.0 then 0.0 else Worth(p)
  }

  function PaidWorth(p: Position): real {
    if Cost(p) > 0.0 then Worth(p) else 0.0
  }

  lemma ShareTimesTotal(p: Position, total: real)
    requires total > 0.0
    ensures WeightedPnl(total)(p) * total == SquareOverCost(p) - PaidWorth(p)
  {
    TimesBack(Worth(p), total);
    Regroup(PnlPercent(p), Worth(p) / total, total, Worth(p));
    if Cost(p) > 0.0 {
      ReturnTimesWorth(Worth(p), Cost(p));
    }
  }

  lemma Regroup(x: real, q: real, total: real, w: real)
    requires q * total == w
    ensures x * q * total == x * w
  {
    assert x * q * total == x * (q * total);
  }

  lemma ReturnTimesWorth(w: real, c: real)
    requires c > 0.0
    ensures (w - c) / c * w == w / c * w - w
  {
    var x, y := (w - c) / c, w / c;
    TimesBack(w - c, c);
    TimesBack(w, c);
    assert (x - y + 1.0) * c == 0.0;
    SignOfFactor(x - y + 1.0, c);
    SignOfFactor(y - x - 1.0, c);
  }

  lemma WeightedReturnTimesTotal(ps: seq<Position>, total: real)
    requires total > 0.0
    ensures WeightedReturn(ps, total) * total == Sum(ps, SquareOverCost) - Sum(ps, PaidWorth)
  {
    forall p | p in ps
      ensures WeightedPnl(total)(p) * total == SquareOverCost(p) - PaidWorth(p)
    {
      ShareTimesTotal(p, total);
    }
    SumOfDifferences(ps, WeightedPnl(total), SquareOverCost, PaidWorth, total);
  }

  lemma PaidIsWorthWithoutFree(ps: seq<Position>)
    ensures Sum(ps, PaidWorth) == Sum(ps, Worth) - Sum(ps, FreeWorth)
  {
    SumOfDifferences(ps, PaidWorth, Worth, FreeWorth, 1.0);
  }

  lemma SquaresDominate(ps: seq<Position>)
    requires PaidFor(ps)
    ensures Dominates(Sum(ps, SquareOverCost), Sum(ps, Cost), Sum(ps, Worth))
  {
    CauchySums(ps, SquareOverCost, Cost, Worth);
  }

  /** When the value-weighted return, around which the volatility is taken, is not below the
      loss percentage it is compared with: exactly when the squares of worths over costs,
      together with what is free, keep the sum inequality. */
  lemma WeightedReturnAboveLossIff(ps: seq<Position>)
    requires Sum(ps, Worth) > 0.0 && Sum(ps, Cost) > 0.0
    ensures WeightedReturn(ps, Sum(ps, Worth)) >= LossPercent(ps)
       <==> KeepsInequality(Sum(ps, SquareOverCost) + Sum(ps, FreeWorth), Sum(ps, Cost), Sum(ps, Worth))
  {
    var v := Sum(ps, Worth);
    WeightedReturnTimesTotal(ps, v);
    PaidIsWorthWithoutFree(ps);
    CompareReturns(WeightedReturn(ps, v), Sum(ps, SquareOverCost), Sum(ps, PaidWorth), Sum(ps, FreeWorth), v, Sum(ps, Cost));
  }

  lemma CompareReturns(x: real, q: real, paid: real, free: real, v: real, c: real)
    requires v > 0.0 && c > 0.0 && paid == v - free && x * v == q - paid
    ensures x >= Change(c, v) <==> KeepsInequality(q + free, c, v)
  {
    var s := q + free;
    var y := (v - c) / c;
    TimesBack(v - c, c);
    assert (x - y) * (v * c) == s * c - v * v by {
      assert (x - y) * (v * c) == (x * v) * c - (y * c) * v;
    }
    SignOf(x - y, v * c);
  }

  lemma SignOf(x: real, c: real)
    requires c > 0.0
    ensures x >= 0.0 <==> x * c >= 0.0
  {
  }

  /** So it never is for paid positions, any number of them. */
  lemma WeightedReturnAboveLoss(ps: seq<Position>)
    requires PaidFor(ps) && Sum(ps, Worth) > 0.0
    ensures WeightedReturn(ps, Sum(ps, Worth)) >= LossPercent(ps)
  {
    SquaresDominate(ps);
    NothingFree(ps);
    WeightedReturnAboveLossIff(ps);
  }

  lemma NothingFree(ps: seq<Position>)
    requires PaidFor(ps)
    ensures Sum(ps, FreeWorth) == 0.0
  {
    SumOfDifferences(ps, FreeWorth, Worth, Worth, 1.0);
  }

  /** A free position beside an unchanged one fails the condition. */
  lemma FreePositionBreaksComparison() returns (ps: seq<Position>)
    ensures !PaidFor(ps) && Sum(ps, Worth) > 0.0
    ensures WeightedReturn(ps, Sum(ps, Worth)) < LossPercent(ps)
  {
    var free, paid := Position("A", 1, 0.0, 100.0), Position("B", 1, 100.0, 100.0);
    ps := [free, paid];
    assert ps[..1] == [free] && [free][..0] == [];
    assert Sum([free], Cost) == 0.0 && Sum([free], Worth) == 100.0 && Sum(ps, Worth) == 200.0;
    assert Sum([free], WeightedPnl(200.0)) == 0.0;
    assert free in ps;
  }

  // ---- The threshold ----

  function Abs(x: real): real { if x < 0.0 then -x else x }

  function Clamp(x: real): real {
    var low := if x < -0.05 then x else -0.05;
    if low > -0.25 then low else -0.25
  }

  function WeightedDeviation(mean: real, total: real): Position -> real
    requires total > 0.0
  {
    p => (PnlPercent(p) - mean) * (PnlPercent(p) - mean) * (Worth(p) / total)
  }

  function Variance(ps: seq<Position>): real
    requires Sum(ps, Worth) > 0.0
  {
    var total := Sum(ps, Worth);
    Sum(ps, WeightedDeviation(WeightedReturn(ps, total), total))
  }

  /** `volatility` is the square root of the variance, or for a single position a tenth of
      its absolute return and five points. */
  ghost predicate IsVolatility(ps: seq<Position>, volatility: real)
    requires Computed(ps)
  {
    if |ps| > 1 then volatility >= 0.0 && volatility * volatility == Variance(ps)
    else volatility == Abs(PnlPercent(ps[0])) * 0.1 + 0.05
  }

  /** Whether the threshold is computed at all; otherwise it is the user's. */
  predicate Computed(ps: seq<Position>) {
    ps != [] && Sum(ps, Worth) > 0.0
  }

  function AlgoThreshold(ps: seq<Position>, stopLoss: real, volatility: real): real {
    if !Computed(ps) then stopLoss else Clamp(-(2.0 * volatility))
  }

  predicate Triggered(loss: real, threshold: real) {
    threshold < 0.0 && loss <= threshold
  }

  predicate AlgoTriggered(ps: seq<Position>, stopLoss: real, volatility: real) {
    Triggered(LossPercent(ps), AlgoThreshold(ps, stopLoss, volatility))
  }

  /** With several positions the algorithm triggers exactly at a loss of 25% or more, or of 5%
      or more whose square is at least four times the variance: never above -5%. */
  lemma AlgoTriggerBand(ps: seq<Position>, stopLoss: real, volatility: real)
    requires Computed(ps) && |ps| > 1 && IsVolatility(ps, volatility)
    ensures AlgoTriggered(ps, stopLoss, volatility)
       <==> LossPercent(ps) <= -0.25
            || (LossPercent(ps) <= -0.05 && LossPercent(ps) * LossPercent(ps) >= 4.0 * Variance(ps))
  {
    ClampedTrigger(LossPercent(ps), volatility, Variance(ps));
  }

  lemma ClampedTrigger(loss: real, volatility: real, variance: real)
    requires volatility >= 0.0 && volatility * volatility == variance
    ensures Triggered(loss, Clamp(-(2.0 * volatility)))
       <==> loss <= -0.25 || (loss <= -0.05 && loss * loss >= 4.0 * variance)
  {
    if loss <= -0.05 {
      CompareSquares(-loss, 2.0 * volatility);
    }
  }

  lemma CompareSquares(a: real, b: real)
    requires a >= 0.0 && b >= 0.0
    ensures a >= b <==> a * a >= b * b
  {
    assert b * b - a * a == (b - a) * (b + a);
    if a < b {
      Positive(b - a, b + a);
    } else {
      assert (a - b) * (b + a) >= 0.0;
    }
  }

  lemma Positive(x: real, y: real)
    requires x > 0.0 && y > 0.0
    ensures x * y > 0.0
  {
  }

  /** When the portfolio is worth nothing, the user's stop loss decides alone. */
  lemma WorthlessPortfolio(ps: seq<Position>, stopLoss: real, volatility: real)
    requires Sum(ps, Worth) == 0.0 && Sum(ps, Cost) > 0.0
    ensures LossPercent(ps) == -1.0
    ensures AlgoTriggered(ps, stopLoss, volatility) <==> -1.0 <= stopLoss < 0.0
  {
  }

  /** A portfolio of one position triggers exactly from a loss of one eighth on. */
  lemma SinglePositionTriggersAtOneEighth(p: Position, stopLoss: real, volatility: real)
    requires Cost(p) > 0.0 && Computed([p]) && IsVolatility([p], volatility)
    ensures AlgoTriggered([p], stopLoss, volatility) <==> PnlPercent(p) <= -0.125
  {
    var ps := [p];
    assert ps[..0] == [] && ps[0] == p;
    assert Sum(ps, Cost) == Cost(p) && Sum(ps, Worth) == Worth(p);
    assert LossPercent(ps) == PnlPercent(p);
  }

  // ---- Defensive sales ----

  /** Shares sold of a holding: seven tenths, cut to a whole number. */
  function SaleQuantity(quantity: int): int {
    if quantity <= 0 then 0 else 7 * quantity / 10
  }

  function Kept(quantity: int): int {
    quantity - SaleQuantity(quantity)
  }

  /** The holding after `k` triggers. */
  function KeptAfter(quantity: int, k: nat): int {
    if k == 0 then quantity else Kept(KeptAfter(quantity, k - 1))
  }

  /** x * (3 / 10) ^ k */
  function Shrink(x: real, k: nat): real {
    if k == 0 then x else 0.3 * Shrink(x, k - 1)
  }

  /** One trigger keeps three tenths, rounded up: less than before from two shares on, and
      never nothing, so a single share is not sold. */
  lemma OneTrigger(quantity: int)
    requires quantity >= 1
    ensures 3 * quantity <= 10 * Kept(quantity) <= 3 * quantity + 9
    ensures 1 <= Kept(quantity) && (Kept(quantity) < quantity <==> quantity >= 2)
  {
  }

  /** After k triggers a holding is (3/10)^k of itself or less than 9/7 shares more. */
  lemma {:induction false} RepeatedTriggers(quantity: int, k: nat)
    requires quantity >= 1
    ensures KeptAfter(quantity, k) >= 1
    ensures 0.0 < Shrink(9.0 / 7.0, k)
    ensures Shrink(quantity as real, k) <= KeptAfter(quantity, k) as real
    ensures KeptAfter(quantity, k) as real <= Shrink(quantity as real, k) + 9.0 / 7.0 - Shrink(9.0 / 7.0, k)
  {
    if k > 0 {
      RepeatedTriggers(quantity, k - 1);
      var before := KeptAfter(quantity, k - 1);
      OneTrigger(before);
      assert 3.0 * before as real <= 10.0 * Kept(before) as real <= 3.0 * before as real + 9.0;
    }
  }

  /** A holding is down to exactly one share once (3/10)^k of it is at most 5/7, and stays so
      at every later trigger. */
  lemma {:induction false} EventuallyOneShare(quantity: int, k: nat, later: nat)
    requires quantity >= 1 && Shrink(quantity as real, k) <= 5.0 / 7.0 && k <= later
    ensures KeptAfter(quantity, later) == 1
    decreases later
  {
    if later == k {
      RepeatedTriggers(quantity, k);
      assert KeptAfter(quantity, k) as real < 2.0;
    } else {
      EventuallyOneShare(quantity, k, later - 1);
      OneTrigger(1);
    }
  }

  // ---- The orders ----

  datatype SellOrder = SellOrder(ticker: string, quantity: int, amount: real)

  function OrderOf(p: Position, quantity: int): SellOrder {
    SellOrder(p.ticker, quantity, quantity as real * p.price)
  }

  function Sale(p: Position): seq<SellOrder> {
    if SaleQuantity(p.quantity) <= 0 then [] else [OrderOf(p, SaleQuantity(p.quantity))]
  }

  function Sales(ps: seq<Position>): seq<SellOrder> {
    if ps == [] then [] else Sales(ps[..|ps| - 1]) + Sale(ps[|ps| - 1])
  }

  predicate Descending(orders: seq<SellOrder>) {
    forall i, j :: 0 <= i < j < |orders| ==> orders[i].amount >= orders[j].amount
  }

  /** Behind every order that is at least as large, so that equal ones keep their order. */
  function Insert(sorted: seq<SellOrder>, o: SellOrder): seq<SellOrder> {
    if sorted == [] || sorted[|sorted| - 1].amount >= o.amount then sorted + [o]
    else Insert(sorted[..|sorted| - 1], o) + [sorted[|sorted| - 1]]
  }

  function SortByAmount(orders: seq<SellOrder>): seq<SellOrder> {
    if orders == [] then [] else Insert(SortByAmount(orders[..|orders| - 1]), orders[|orders| - 1])
  }

  function IfOf(amount: real, o: SellOrder): seq<SellOrder> {
    if o.amount == amount then [o] else []
  }

  function OfAmount(orders: seq<SellOrder>, amount: real): seq<SellOrder> {
    if orders == [] then []
    else OfAmount(orders[..|orders| - 1], amount) + IfOf(amount, orders[|orders| - 1])
  }

  lemma OfAmountAppend(orders: seq<SellOrder>, o: SellOrder, amount: real)
    ensures OfAmount(orders + [o], amount) == OfAmount(orders, amount) + IfOf(amount, o)
  {
    assert (orders + [o])[..|orders|] == orders;
  }

  lemma {:induction false} InsertKeepsOfAmount(sorted: seq<SellOrder>, o: SellOrder, amount: real)
    ensures OfAmount(Insert(sorted, o), amount) == OfAmount(sorted, amount) + IfOf(amount, o)
  {
    if sorted == [] || sorted[|sorted| - 1].amount >= o.amount {
      OfAmountAppend(sorted, o, amount);
    } else {
      var front, last := sorted[..|sorted| - 1], sorted[|sorted| - 1];
      InsertKeepsOfAmount(front, o, amount);
      OfAmountAppend(Insert(front, o), last, amount);
      assert IfOf(amount, o) + IfOf(amount, last) == IfOf(amount, last) + IfOf(amount, o);
    }
  }

  lemma {:induction false} InsertKeepsOrder(sorted: seq<SellOrder>, o: SellOrder)
    requires Descending(sorted)
    ensures Descending(Insert(sorted, o))
    ensures forall x :: x in Insert(sorted, o) ==> x in sorted || x == o
  {
    if sorted != [] && sorted[|sorted| - 1].amount < o.amount {
      var front, last := sorted[..|sorted| - 1], sorted[|sorted| - 1];
      InsertKeepsOrder(front, o);
      forall x | x in Insert(front, o)
        ensures x.amount >= last.amount
      {
      }
    }
  }

  /** Largest estimated amount first, and for each amount the orders in their old order. */
  lemma {:induction false} SortIsStable(orders: seq<SellOrder>, amount: real)
    ensures Descending(SortByAmount(orders))
    ensures OfAmount(SortByAmount(orders), amount) == OfAmount(orders, amount)
  {
    if orders != [] {
      var front, last := orders[..|orders| - 1], orders[|orders| - 1];
      SortIsStable(front, amount);
      InsertKeepsOrder(SortByAmount(front), last);
      InsertKeepsOfAmount(SortByAmount(front), last, amount);
    }
  }

  method GenerateDefensiveOrders(positions: seq<Position>) returns (orders: seq<SellOrder>)
    ensures orders == SortByAmount(Sales(positions))
  {
    var unsorted: seq<SellOrder> := [];
    for i := 0 to |positions|
      invariant unsorted == Sales(positions[..i])
    {
      assert positions[..i + 1][..i] == positions[..i];
      assert Sales(positions[..i + 1]) == Sales(positions[..i]) + Sale(positions[i]);
      var sellQty := SaleQuantity(positions[i].quantity);
      if sellQty > 0 {
        unsorted := unsorted + [OrderOf(positions[i], sellQty)];
      }
    }
    assert positions[..|positions|] == positions;
    orders := [];
    for i := 0 to |unsorted|
      invariant orders == SortByAmount(unsorted[..i])
    {
      assert unsorted[..i + 1][..i] == unsorted[..i];
      orders := Insert(orders, unsorted[i]);
    }
    assert unsorted[..|unsorted|] == unsorted;
  }

  /** A holding of two shares or more is sold by exactly one order: seven tenths of it, rounded
      down, at the current price; smaller ones by none. What is left is what is kept. */
  lemma SaleIsSevenTenths(p: Position)
    ensures p.quantity < 2 ==> Sale(p) == []
    ensures p.quantity >= 2 ==>
              && |Sale(p)| == 1
              && var o := Sale(p)[0];
                 && o.ticker == p.ticker && o.amount == o.quantity as real * p.price
                 && 10 * o.quantity <= 7 * p.quantity < 10 * o.quantity + 10
                 && o.quantity + Kept(p.quantity) == p.quantity
  {
  }

  lemma {:induction false} InsertKeepsAll(sorted: seq<SellOrder>, o: SellOrder)
    ensures multiset(Insert(sorted, o)) == multiset(sorted) + multiset{o}
  {
    if sorted != [] && sorted[|sorted| - 1].amount < o.amount {
      InsertKeepsAll(sorted[..|sorted| - 1], o);
      assert sorted == sorted[..|sorted| - 1] + [sorted[|sorted| - 1]];
    }
  }

  /** Sorting drops no order and adds none. */
  lemma {:induction false} SortKeepsAll(orders: seq<SellOrder>)
    ensures multiset(SortByAmount(orders)) == multiset(orders)
  {
    if orders != [] {
      var front := orders[..|orders| - 1];
      SortKeepsAll(front);
      InsertKeepsAll(SortByAmount(front), orders[|orders| - 1]);
      assert orders == front + [orders[|orders| - 1]];
    }
  }
}
