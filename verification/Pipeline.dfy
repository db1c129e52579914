/** The analysis pipeline: gates between its steps, and the fallback when one blocks. */
module Pipelines {
  import opened Common
  import opened PipelineStates
  import opened GateRegistries

  // ---- Fallback ----

  const DEFAULT_FALLBACKS: map<string, State> := map[
    "DataGate" := IDLE, "FactorGate" := IDLE, "SignalGate" := IDLE, "EnsembleGate" := IDLE,
    "PortfolioGate" := IDLE, "TradingGuardGate" := IDLE,
    "ReconGate" := HALTED, "ExecutionGate" := HALTED, "FillGate" := HALTED]

  function FallbackState(fallbacks: map<string, State>, gateId: string): State {
    if gateId in fallbacks then fallbacks[gateId] else IDLE
  }

  /** Where a block leaves the machine: any fallback but HALTED becomes a reset. */
  function StateAfterBlock(fallbacks: map<string, State>, gateId: string): State {
    if FallbackState(fallbacks, gateId) == HALTED then HALTED else IDLE
  }

  class FallbackHandler {
    const sm: PipelineStateMachine
    const fallbacks: map<string, State>

    constructor (sm: PipelineStateMachine, custom: map<string, State>)
      ensures this.sm == sm && fallbacks == DEFAULT_FALLBACKS + custom
    {
      this.sm := sm;
      fallbacks := DEFAULT_FALLBACKS + custom;
    }

    method Handle(result: GateResult) returns (now: State)
      requires sm.Valid()
      modifies sm
      ensures sm.Valid() && now == sm.state && old(sm.history) <= sm.history
      ensures result.decision == PASS ==> now == old(sm.state) && sm.history == old(sm.history)
      ensures result.decision == BLOCK ==> now == StateAfterBlock(fallbacks, result.gateId)
    {
      if result.decision == PASS {
        return sm.state;
      }
      var fallbackState := FallbackState(fallbacks, result.gateId);
      if fallbackState == HALTED {
        now := sm.Halt();
      } else {
        now := sm.Reset();
      }
    }
  }

  /** The configured fallback is reached exactly if it is IDLE or HALTED, which holds for
      every gate as long as all custom fallbacks are. */
  lemma FallbackReached(custom: map<string, State>, gateId: string)
    ensures var f := DEFAULT_FALLBACKS + custom;
            StateAfterBlock(f, gateId) == FallbackState(f, gateId) <==> FallbackState(f, gateId) in {IDLE, HALTED}
    ensures (forall id :: id in custom ==> custom[id] in {IDLE, HALTED}) ==>
              FallbackState(DEFAULT_FALLBACKS + custom, gateId) in {IDLE, HALTED}
  {
    DefaultsAreSafe(gateId);
  }

  lemma DefaultsAreSafe(gateId: string)
    ensures FallbackState(DEFAULT_FALLBACKS, gateId) in {IDLE, HALTED}
  {
  }

  // ---- One analysis ----

  /** What the services come up with for one ticker; nothing where one raises. */
  datatype Work = Work(articles: Option<Data>, inputs: Option<Data>, weights: Option<Data>)

  datatype PipelineResult = PipelineResult(gateResults: seq<GateResult>, finalState: State, blockedBy: Option<string>)

  datatype RunResult = Returned(result: PipelineResult) | Raised

  /** Verdicts in order, and why the analysis ended early, if it did. */
  datatype Judged = Judged(results: seq<GateResult>, blocked: Option<GateResult>, blockedBy: Option<string>, raised: bool)

  const PASSED := Judged([], None, None, false)

  function Prepended(results: seq<GateResult>, judged: Judged): Judged {
    judged.(results := results + judged.results)
  }

  /** One stage, asking the gate about `data` if both are there, and what comes after it. */
  function Stage(gates: map<string, Gate>, gateId: string, data: Option<Data>, rest: Judged): Judged {
    if data == None then Judged([], None, None, true)
    else if gateId !in gates then rest
    else
      var result := gates[gateId].evaluate(data);
      if result.decision == BLOCK then Judged([result], Some(result), Some(gateId), false)
      else Prepended([result], rest)
  }

  function FromEnsemble(gates: map<string, Gate>, work: Work): Judged {
    Stage(gates, "EnsembleGate", work.weights, PASSED)
  }

  function FromSignals(gates: map<string, Gate>, work: Work): Judged {
    Stage(gates, "SignalGate", work.inputs, FromEnsemble(gates, work))
  }

  function Judge(gates: map<string, Gate>, work: Work): Judged {
    Stage(gates, "DataGate", work.articles, FromSignals(gates, work))
  }

  /** The outcome of one analysis; it does not depend on the state it starts from. */
  function Analysis(gates: map<string, Gate>, fallbacks: map<string, State>, work: Work): RunResult {
    var judged := Judge(gates, work);
    if judged.raised then Raised
    else if judged.blocked.Some? then
      Returned(PipelineResult(judged.results, StateAfterBlock(fallbacks, judged.blocked.value.gateId), judged.blockedBy))
    else Returned(PipelineResult(judged.results, COMPLETED, None))
  }

  class InvestmentDecisionPipeline {
    const sm: PipelineStateMachine
    const registry: GateRegistry
    const fallback: FallbackHandler

    /** The handler drives the pipeline's own machine, as it does by default. */
    ghost predicate Valid()
      reads this, sm, registry, fallback
    {
      sm.Valid() && registry.Valid() && fallback.sm == sm
    }

    constructor (sm: PipelineStateMachine, registry: GateRegistry, custom: map<string, State>)
      requires sm.Valid() && registry.Valid()
      ensures Valid() && this.sm == sm && this.registry == registry && fallback.fallbacks == DEFAULT_FALLBACKS + custom
    {
      this.sm := sm;
      this.registry := registry;
      fallback := new FallbackHandler(sm, custom);
    }

    /** `block` is a registered gate's BLOCK verdict, which is handled here; without one the
        analysis goes on to `rest`. */
    method EvaluateGate(gateId: string, data: Data, results: seq<GateResult>, ghost rest: Judged)
      returns (block: Option<GateResult>, gateResults: seq<GateResult>)
      requires Valid()
      modifies sm
      ensures Valid() && old(sm.history) <= sm.history
      ensures block.None? ==>
                && Prepended(results, Stage(registry.gates, gateId, Some(data), rest)) == Prepended(gateResults, rest)
                && sm.state == old(sm.state)
      ensures block.Some? ==>
                && Prepended(results, Stage(registry.gates, gateId, Some(data), rest)) == Judged(gateResults, block, Some(gateId), false)
                && sm.state == StateAfterBlock(fallback.fallbacks, block.value.gateId)
    {
      if gateId !in registry.gates {
        return None, results;
      }
      var result := registry.gates[gateId].evaluate(Some(data));
      gateResults := results + [result];
      if result.decision == BLOCK {
        var now := fallback.Handle(result);
        return Some(result), gateResults;
      }
      assert results + ([result] + rest.results) == gateResults + rest.results;
      block := None;
    }

    /** None of the transitions is ever refused. */
    method RunFullAnalysis(work: Work) returns (r: RunResult)
      requires Valid()
      modifies sm
      ensures Valid() && old(sm.history) <= sm.history
      ensures r == Analysis(registry.gates, fallback.fallbacks, work)
      ensures r.Returned? ==> sm.state == r.result.finalState
      ensures r.Raised? ==> sm.state in {COLLECTING, ANALYZING}
    {
      var gateResults: seq<GateResult> := [];
      ghost var gates := registry.gates;
      assert Judge(gates, work) == Prepended([], Judge(gates, work));
      var now := sm.Reset();
      var raised := sm.Transition(COLLECTING);
      assert !raised && old(sm.history) <= sm.history;
      if work.articles == None {
        return Raised;
      }
      var block: Option<GateResult>;
      block, gateResults := EvaluateGate("DataGate", work.articles.value, gateResults, FromSignals(gates, work));
      if block.Some? {
        return Returned(PipelineResult(gateResults, sm.state, Some("DataGate")));
      }
      r := AnalyzeCollected(work, gateResults);
    }

    /** The analysis from the second transition on. */
    method AnalyzeCollected(work: Work, results: seq<GateResult>) returns (r: RunResult)
      requires Valid() && sm.state == COLLECTING
      requires Judge(registry.gates, work) == Prepended(results, FromSignals(registry.gates, work))
      modifies sm
      ensures Valid() && old(sm.history) <= sm.history
      ensures r == Analysis(registry.gates, fallback.fallbacks, work)
      ensures r.Returned? ==> sm.state == r.result.finalState
      ensures r.Raised? ==> sm.state == ANALYZING
    {
      var gateResults := results;
      ghost var gates := registry.gates;
      var raised := sm.Transition(ANALYZING);
      assert !raised;
      if work.inputs == None {
        return Raised;
      }
      var block: Option<GateResult>;
      block, gateResults := EvaluateGate("SignalGate", work.inputs.value, gateResults, FromEnsemble(gates, work));
      assert old(sm.history) <= sm.history;
      if block.Some? {
        return Returned(PipelineResult(gateResults, sm.state, Some("SignalGate")));
      }
      if work.weights == None {
        return Raised;
      }
      block, gateResults := EvaluateGate("EnsembleGate", work.weights.value, gateResults, PASSED);
      assert old(sm.history) <= sm.history;
      if block.Some? {
        return Returned(PipelineResult(gateResults, sm.state, Some("EnsembleGate")));
      }
      raised := sm.Transition(COMPLETED);
      assert !raised;
      r := Returned(PipelineResult(gateResults, COMPLETED, None));
    }

    /** Tickers whose analysis raises are skipped; a later result for a ticker replaces an
        earlier one. */
    method RunBatchAnalysis(tickers: seq<string>, works: seq<Work>) returns (results: map<string, PipelineResult>)
      requires Valid() && |works| == |tickers|
      modifies sm
      ensures Valid() && old(sm.history) <= sm.history
      ensures results == BatchResults(registry.gates, fallback.fallbacks, tickers, works)
    {
      results := map[];
      for i := 0 to |tickers|
        invariant Valid() && old(sm.history) <= sm.history
        invariant results == BatchResults(registry.gates, fallback.fallbacks, tickers[..i], works[..i])
      {
        assert tickers[..i + 1][..i] == tickers[..i] && works[..i + 1][..i] == works[..i];
        var r := RunFullAnalysis(works[i]);
        if r.Returned? {
          results := results[tickers[i] := r.result];
        }
      }
      assert tickers[..|tickers|] == tickers && works[..|works|] == works;
    }
  }

  function BatchResults(gates: map<string, Gate>, fallbacks: map<string, State>, tickers: seq<string>, works: seq<Work>): map<string, PipelineResult>
    requires |works| == |tickers|
  {
    if tickers == [] then map[]
    else
      var n := |tickers| - 1;
      var before := BatchResults(gates, fallbacks, tickers[..n], works[..n]);
      var r := Analysis(gates, fallbacks, works[n]);
      if r.Returned? then before[tickers[n] := r.result] else before
  }

  // ---- What a result says ----

  /** Only the last verdict may be BLOCK, and is exactly if the analysis was blocked. */
  predicate BlockedAtMostLast(j: Judged) {
    && (forall i :: 0 <= i < |j.results| - 1 ==> j.results[i].decision == PASS)
    && (j.blocked.Some? <==> j.results != [] && j.results[|j.results| - 1].decision == BLOCK)
    && (j.blocked.Some? ==> j.blocked.value == j.results[|j.results| - 1] && !j.raised)
    && (j.blocked.Some? <==> j.blockedBy.Some?)
  }

  lemma StageBlocksAtMostLast(gates: map<string, Gate>, gateId: string, data: Option<Data>, rest: Judged)
    requires BlockedAtMostLast(rest)
    ensures BlockedAtMostLast(Stage(gates, gateId, data, rest))
    ensures |Stage(gates, gateId, data, rest).results| <= 1 + |rest.results|
  {
  }

  /** A returned result either has only PASS verdicts and is COMPLETED, or exactly its last
      verdict is BLOCK and it ended where the fallback for that verdict's gate leads. */
  lemma PassedOrLastBlocked(gates: map<string, Gate>, fallbacks: map<string, State>, work: Work)
    requires Analysis(gates, fallbacks, work).Returned?
    ensures var p := Analysis(gates, fallbacks, work).result;
            var n := |p.gateResults|;
            && n <= 3 && (forall i :: 0 <= i < n - 1 ==> p.gateResults[i].decision == PASS)
            && (p.blockedBy.None? ==> p.finalState == COMPLETED && (n > 0 ==> p.gateResults[n - 1].decision == PASS))
            && (p.blockedBy.Some? ==> n > 0 && p.gateResults[n - 1].decision == BLOCK
                                      && p.finalState == StateAfterBlock(fallbacks, p.gateResults[n - 1].gateId))
  {
    StageBlocksAtMostLast(gates, "EnsembleGate", work.weights, PASSED);
    StageBlocksAtMostLast(gates, "SignalGate", work.inputs, FromEnsemble(gates, work));
    StageBlocksAtMostLast(gates, "DataGate", work.articles, FromSignals(gates, work));
  }

  /** A ticker's result in a batch is that of its last analysis that did not raise, whatever
      became of the others. */
  lemma {:induction false} BatchIsolatesTickers(gates: map<string, Gate>, fallbacks: map<string, State>, tickers: seq<string>, works: seq<Work>, i: nat)
    requires |works| == |tickers| && i < |tickers|
    requires Analysis(gates, fallbacks, works[i]).Returned?
    requires forall j :: i < j < |tickers| && tickers[j] == tickers[i] ==> Analysis(gates, fallbacks, works[j]).Raised?
    ensures var results := BatchResults(gates, fallbacks, tickers, works);
            tickers[i] in results && results[tickers[i]] == Analysis(gates, fallbacks, works[i]).result
  {
    var n := |tickers| - 1;
    if i < n {
      BatchIsolatesTickers(gates, fallbacks, tickers[..n], works[..n], i);
    }
  }

  predicate ReturnsFor(gates: map<string, Gate>, fallbacks: map<string, State>, tickers: seq<string>, works: seq<Work>, ticker: string, i: int) {
    0 <= i < |tickers| && i < |works| && tickers[i] == ticker && Analysis(gates, fallbacks, works[i]).Returned?
  }

  /** A ticker is in the results exactly if some analysis of it did not raise. */
  lemma {:induction false} BatchHasReturned(gates: map<string, Gate>, fallbacks: map<string, State>, tickers: seq<string>, works: seq<Work>, ticker: string)
    requires |works| == |tickers|
    ensures ticker in BatchResults(gates, fallbacks, tickers, works)
       <==> exists i :: ReturnsFor(gates, fallbacks, tickers, works, ticker, i)
  {
    if tickers != [] {
      var n := |tickers| - 1;
      BatchHasReturned(gates, fallbacks, tickers[..n], works[..n], ticker);
      if i :| ReturnsFor(gates, fallbacks, tickers[..n], works[..n], ticker, i) {
        assert ReturnsFor(gates, fallbacks, tickers, works, ticker, i);
      }
      if i :| ReturnsFor(gates, fallbacks, tickers, works, ticker, i) && i < n {
        assert ReturnsFor(gates, fallbacks, tickers[..n], works[..n], ticker, i);
      }
      if ReturnsFor(gates, fallbacks, tickers, works, ticker, n) {
        assert ticker in BatchResults(gates, fallbacks, tickers, works);
      }
    }
  }

  /** The dynamic ensemble's first transition, from IDLE to ANALYZING, is not listed. */
  lemma DynamicEnsembleCannotStart(initial: State, ops: seq<Op>)
    ensures HistoryOf(initial, ops + [Op.Reset, Op.Transition(ANALYZING)]) == HistoryOf(initial, ops + [Op.Reset])
  {
    var both := ops + [Op.Reset, Op.Transition(ANALYZING)];
    assert both[..|both| - 1] == ops + [Op.Reset];
    assert (ops + [Op.Reset])[..|ops|] == ops;
  }

  // ---- Every registered gate is asked ----

  /** The verdict of a gate on what it would be asked about, if it is registered. */
  function Verdict(gates: map<string, Gate>, gateId: string, data: Option<Data>): seq<GateResult> {
    if gateId in gates then [gates[gateId].evaluate(data)] else []
  }

  /** The verdicts of all three gates of the analysis, in order. */
  function AllVerdicts(gates: map<string, Gate>, work: Work): seq<GateResult> {
    Verdict(gates, "DataGate", work.articles) + Verdict(gates, "SignalGate", work.inputs) + Verdict(gates, "EnsembleGate", work.weights)
  }

  /** Some gate says BLOCK to `data`. */
  predicate Blocks(gates: map<string, Gate>, gateId: string, data: Option<Data>) {
    gateId in gates && gates[gateId].evaluate(data).decision == BLOCK
  }

  lemma StageAsks(gates: map<string, Gate>, gateId: string, data: Option<Data>, rest: Judged, verdicts: seq<GateResult>)
    requires rest.results <= verdicts && (!rest.raised && rest.blocked.None? ==> rest.results == verdicts)
    ensures var j := Stage(gates, gateId, data, rest);
            && (data.Some? ==> j.results <= Verdict(gates, gateId, data) + verdicts)
            && (data.None? ==> j.results == [] && j.raised)
            && (!j.raised && j.blocked.None? ==> j.results == Verdict(gates, gateId, data) + verdicts)
  {
  }

  /** A completed analysis has asked every registered gate of the three, each about its own
      data, in order; one that was blocked has asked all of them up to the one that blocked. */
  lemma EveryRegisteredGateIsAsked(gates: map<string, Gate>, fallbacks: map<string, State>, work: Work)
    requires Analysis(gates, fallbacks, work).Returned?
    ensures var p := Analysis(gates, fallbacks, work).result;
            && p.gateResults <= AllVerdicts(gates, work)
            && (p.blockedBy.None? ==> p.gateResults == AllVerdicts(gates, work))
  {
    var last := Verdict(gates, "EnsembleGate", work.weights);
    var lastTwo := Verdict(gates, "SignalGate", work.inputs) + last;
    StageAsks(gates, "EnsembleGate", work.weights, PASSED, []);
    assert last + [] == last;
    StageAsks(gates, "SignalGate", work.inputs, FromEnsemble(gates, work), last);
    StageAsks(gates, "DataGate", work.articles, FromSignals(gates, work), lastTwo);
    assert AllVerdicts(gates, work) == Verdict(gates, "DataGate", work.articles) + lastTwo;
  }

  /** Which gate blocks, and whether the analysis raises, in terms of the gates and services. */
  lemma BlockedByFirst(gates: map<string, Gate>, fallbacks: map<string, State>, work: Work)
    ensures var r := Analysis(gates, fallbacks, work);
            var dataBlocks := Blocks(gates, "DataGate", work.articles);
            var signalBlocks := Blocks(gates, "SignalGate", work.inputs);
            var ensembleBlocks := Blocks(gates, "EnsembleGate", work.weights);
            && (r.Raised? <==>
                  || work.articles.None?
                  || (!dataBlocks && (work.inputs.None? || (!signalBlocks && work.weights.None?))))
            && (r.Returned? ==>
                  r.result.blockedBy == (if dataBlocks then Some("DataGate")
                                         else if signalBlocks then Some("SignalGate")
                                         else if ensembleBlocks then Some("EnsembleGate")
                                         else None))
  {
  }

  /** By default exactly the gates around execution and reconciliation halt the pipeline. */
  lemma DefaultHalts(gateId: string)
    ensures StateAfterBlock(DEFAULT_FALLBACKS, gateId) == (if gateId in {"ReconGate", "ExecutionGate", "FillGate"} then HALTED else IDLE)
  {
  }
}
