/** Comparing the broker's positions with the ledger's. */
module Reconciliations {
  import opened Common
  import opened MapSums

  type PositionMap = map<string, real>

  const TOLERANCE := 0.000001

  datatype Mismatch = Mismatch(ticker: string, brokerQty: real, internalQty: real, difference: real)

  datatype Report = Report(matched: bool, mismatches: seq<Mismatch>, brokerTotal: real, internalTotal: real)

  predicate Differs(broker: PositionMap, internal: PositionMap, ticker: string) {
    var d := Get(broker, ticker) - Get(internal, ticker);
    d > TOLERANCE || d < -TOLERANCE
  }

  /** One right entry for every ticker of either side that differs, and no other entry. */
  ghost predicate Lists(mismatches: seq<Mismatch>, broker: PositionMap, internal: PositionMap, tickers: set<string>) {
    && (forall i :: 0 <= i < |mismatches| ==>
          var m := mismatches[i];
          && m.ticker in tickers && Differs(broker, internal, m.ticker)
          && m.brokerQty == Get(broker, m.ticker) && m.internalQty == Get(internal, m.ticker)
          && m.difference == m.brokerQty - m.internalQty)
    && (forall i, j :: 0 <= i < j < |mismatches| ==> mismatches[i].ticker != mismatches[j].ticker)
    && (forall t :: t in tickers && Differs(broker, internal, t) ==> exists i :: 0 <= i < |mismatches| && mismatches[i].ticker == t)
  }

  ghost predicate IsReport(broker: PositionMap, internal: PositionMap, r: Report) {
    && Lists(r.mismatches, broker, internal, broker.Keys + internal.Keys)
    && (r.matched <==> r.mismatches == [])
    && r.brokerTotal == Sum(broker) && r.internalTotal == Sum(internal)
  }

  function Entry(broker: PositionMap, internal: PositionMap, ticker: string): Mismatch {
    Mismatch(ticker, Get(broker, ticker), Get(internal, ticker), Get(broker, ticker) - Get(internal, ticker))
  }

  lemma Extend(mismatches: seq<Mismatch>, broker: PositionMap, internal: PositionMap, tickers: set<string>, ticker: string)
    requires Lists(mismatches, broker, internal, tickers) && ticker !in tickers
    ensures if Differs(broker, internal, ticker) then Lists(mismatches + [Entry(broker, internal, ticker)], broker, internal, tickers + {ticker})
            else Lists(mismatches, broker, internal, tickers + {ticker})
  {
    if Differs(broker, internal, ticker) {
      var longer := mismatches + [Entry(broker, internal, ticker)];
      forall t | t in tickers + {ticker} && Differs(broker, internal, t)
        ensures exists i :: 0 <= i < |longer| && longer[i].ticker == t
      {
        if t == ticker {
          assert longer[|mismatches|].ticker == t;
        } else {
          var i :| 0 <= i < |mismatches| && mismatches[i].ticker == t;
          assert longer[i].ticker == t;
        }
      }
    }
  }

  class ReconciliationEngine {
    var lastResult: Option<Report>

    constructor ()
      ensures lastResult == None
    {
      lastResult := None;
    }

    method Reconcile(broker: PositionMap, internal: PositionMap) returns (r: Report)
      modifies this
      ensures IsReport(broker, internal, r) && lastResult == Some(r)
    {
      var mismatches: seq<Mismatch> := [];
      var matched := true;
      var allTickers := broker.Keys + internal.Keys;
      var rest := allTickers;
      while rest != {}
        invariant rest <= allTickers
        invariant Lists(mismatches, broker, internal, allTickers - rest)
        invariant matched <==> mismatches == []
        decreases rest
      {
        var ticker :| ticker in rest;
        var brokerQty := Get(broker, ticker);
        var internalQty := Get(internal, ticker);
        Extend(mismatches, broker, internal, allTickers - rest, ticker);
        if brokerQty - internalQty > TOLERANCE || internalQty - brokerQty > TOLERANCE {
          matched := false;
          mismatches := mismatches + [Mismatch(ticker, brokerQty, internalQty, brokerQty - internalQty)];
        }
        assert allTickers - (rest - {ticker}) == allTickers - rest + {ticker};
        rest := rest - {ticker};
      }
      assert allTickers - rest == allTickers;
      var brokerTotal := SumValues(broker);
      var internalTotal := SumValues(internal);
      r := Report(matched, mismatches, brokerTotal, internalTotal);
      lastResult := Some(r);
    }

    method GetMismatches() returns (mismatches: seq<Mismatch>)
      ensures mismatches == if lastResult.None? then [] else lastResult.value.mismatches
    {
      if lastResult.None? {
        return [];
      }
      return lastResult.value.mismatches;
    }
  }

  /** A match means that no ticker, listed or not, differs, and bounds the totals' difference
      by the tolerance times the number of tickers. */
  lemma MatchBoundsTotals(broker: PositionMap, internal: PositionMap, r: Report)
    requires IsReport(broker, internal, r)
    ensures r.matched <==> forall t :: !Differs(broker, internal, t)
    ensures r.matched ==>
              var bound := Times(|broker.Keys + internal.Keys|, TOLERANCE);
              -bound <= r.brokerTotal - r.internalTotal <= bound
  {
    var tickers := broker.Keys + internal.Keys;
    if r.matched {
      forall t
        ensures !Differs(broker, internal, t)
      {
        if t !in tickers {
          assert Get(broker, t) == Get(internal, t);
        }
      }
      forall k | k in tickers
        ensures -TOLERANCE <= Get(broker, k) - Get(internal, k) <= TOLERANCE
      {
        assert !Differs(broker, internal, k);
      }
      SumsClose(broker, internal, tickers, TOLERANCE);
    } else {
      assert Differs(broker, internal, r.mismatches[0].ticker);
    }
  }
}
