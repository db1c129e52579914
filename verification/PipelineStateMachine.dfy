/** The pipeline's state machine, with its history. */
module PipelineStates {

  datatype State = IDLE | COLLECTING | ANALYZING | CONSTRUCTING | VALIDATING | TRADING | RECONCILING | COMPLETED | HALTED | ERROR

  function ValidTransitions(s: State): set<State> {
    match s
    case IDLE => {COLLECTING}
    case COLLECTING => {ANALYZING, ERROR, HALTED}
    case ANALYZING => {CONSTRUCTING, COMPLETED, IDLE, ERROR, HALTED}
    case CONSTRUCTING => {VALIDATING, ERROR, HALTED}
    case VALIDATING => {TRADING, IDLE, ERROR, HALTED}
    case TRADING => {RECONCILING, HALTED, ERROR}
    case RECONCILING => {COMPLETED, HALTED, ERROR}
    case COMPLETED => {IDLE}
    case HALTED => {IDLE}
    case ERROR => {IDLE, HALTED}
  }

  predicate CanTransition(s: State, target: State) {
    target in ValidTransitions(s)
  }

  /** `forced` stands for the marker that the machine puts before the reason. */
  datatype Entry = Entry(state: State, forced: bool)

  datatype Op = Transition(target: State) | Halt | Reset

  /** The entry that an operation appends, if any: a refused transition appends none. */
  function Appended(s: State, op: Op): seq<Entry> {
    match op
    case Transition(target) => if CanTransition(s, target) then [Entry(target, false)] else []
    case Halt => [Entry(HALTED, !CanTransition(s, HALTED))]
    case Reset => [Entry(IDLE, !CanTransition(s, IDLE))]
  }

  class PipelineStateMachine {
    var state: State
    var history: seq<Entry>

    ghost predicate Valid()
      reads this
    {
      WellFormed(history) && history[|history| - 1].state == state
    }

    constructor (initialState: State)
      ensures Valid() && history == [Entry(initialState, false)]
    {
      state := initialState;
      history := [Entry(initialState, false)];
    }

    /** A forbidden transition raises and changes nothing. */
    method Transition(target: State) returns (raised: bool)
      requires Valid()
      modifies this
      ensures Valid() && history == old(history) + Appended(old(state), Op.Transition(target))
      ensures raised <==> !CanTransition(old(state), target)
      ensures state == if raised then old(state) else target
    {
      if !CanTransition(state, target) {
        return true;
      }
      state := target;
      history := history + [Entry(target, false)];
      raised := false;
    }

    method Halt() returns (now: State)
      requires Valid()
      modifies this
      ensures Valid() && history == old(history) + Appended(old(state), Op.Halt)
      ensures now == state == HALTED
    {
      if CanTransition(state, HALTED) {
        var raised := Transition(HALTED);
        assert !raised;
        return state;
      }
      state := HALTED;
      history := history + [Entry(HALTED, true)];
      now := state;
    }

    method Reset() returns (now: State)
      requires Valid()
      modifies this
      ensures Valid() && history == old(history) + Appended(old(state), Op.Reset)
      ensures now == state == IDLE
    {
      if CanTransition(state, IDLE) {
        var raised := Transition(IDLE);
        assert !raised;
        return state;
      }
      state := IDLE;
      history := history + [Entry(IDLE, true)];
      now := state;
    }
  }

  // ---- Histories ----

  /** A listed transition, or a forced move to IDLE or HALTED where none is listed. */
  predicate IsStep(s: State, next: Entry) {
    if next.forced then next.state in {IDLE, HALTED} && !CanTransition(s, next.state) else CanTransition(s, next.state)
  }

  ghost predicate WellFormed(history: seq<Entry>) {
    && history != [] && !history[0].forced
    && forall i :: 0 < i < |history| ==> IsStep(history[i - 1].state, history[i])
  }

  /** The history after a run of operations, refused ones among them. */
  function HistoryOf(initial: State, ops: seq<Op>): (h: seq<Entry>)
    ensures h != []
  {
    if ops == [] then [Entry(initial, false)]
    else
      var h := HistoryOf(initial, ops[..|ops| - 1]);
      h + Appended(h[|h| - 1].state, ops[|ops| - 1])
  }

  lemma {:induction false} RunIsWellFormed(initial: State, ops: seq<Op>)
    ensures WellFormed(HistoryOf(initial, ops)) && HistoryOf(initial, ops)[0].state == initial
  {
    if ops != [] {
      var h := HistoryOf(initial, ops[..|ops| - 1]);
      RunIsWellFormed(initial, ops[..|ops| - 1]);
      AppendKeeps(h, ops[|ops| - 1]);
    }
  }

  lemma AppendKeeps(h: seq<Entry>, op: Op)
    requires WellFormed(h)
    ensures WellFormed(h + Appended(h[|h| - 1].state, op))
  {
    var next := h + Appended(h[|h| - 1].state, op);
    forall i | 0 < i < |next|
      ensures IsStep(next[i - 1].state, next[i])
    {
      if i < |h| {
        assert IsStep(h[i - 1].state, h[i]);
      }
    }
  }

  /** Every well-formed history is some run's. */
  lemma {:induction false} WellFormedIsRun(h: seq<Entry>) returns (ops: seq<Op>)
    requires WellFormed(h)
    ensures HistoryOf(h[0].state, ops) == h
  {
    if |h| == 1 {
      ops := [];
    } else {
      var front, last := h[..|h| - 1], h[|h| - 1];
      var before := WellFormedIsRun(front);
      var op := if !last.forced then Op.Transition(last.state) else if last.state == HALTED then Op.Halt else Op.Reset;
      ops := before + [op];
      assert ops[..|ops| - 1] == before;
      assert IsStep(h[|h| - 2].state, last);
    }
  }

  /** The starts from which no check before TRADING can have been skipped. */
  const SAFE_STARTS: set<State> := {IDLE, RECONCILING, COMPLETED, HALTED, ERROR}

  /** The entries before the i-th are the full chain of checks. */
  predicate FullChain(h: seq<Entry>, i: int) {
    && 5 <= i < |h|
    && h[i - 1].state == VALIDATING && h[i - 2].state == CONSTRUCTING && h[i - 3].state == ANALYZING
    && h[i - 4].state == COLLECTING && h[i - 5].state == IDLE
  }

  /** In a history from one of those starts every TRADING entry ends the full chain. */
  lemma TradingFollowsEveryCheck(h: seq<Entry>, i: nat)
    requires WellFormed(h) && h[0].state in SAFE_STARTS
    requires i < |h| && h[i].state == TRADING
    ensures FullChain(h, i)
  {
    OnlyFrom(h, i, VALIDATING);
    OnlyFrom(h, i - 1, CONSTRUCTING);
    OnlyFrom(h, i - 2, ANALYZING);
    OnlyFrom(h, i - 3, COLLECTING);
    OnlyFrom(h, i - 4, IDLE);
  }

  /** The state from which a stage on the way to TRADING is entered. */
  lemma OnlyFrom(h: seq<Entry>, i: nat, before: State)
    requires WellFormed(h) && h[0].state in SAFE_STARTS && i < |h|
    requires (before, h[i].state) in {(VALIDATING, TRADING), (CONSTRUCTING, VALIDATING), (ANALYZING, CONSTRUCTING), (COLLECTING, ANALYZING), (IDLE, COLLECTING)}
    ensures i > 0 && h[i - 1].state == before
  {
    assert i > 0;
    assert IsStep(h[i - 1].state, h[i]);
  }

  /** In every history from `start`, TRADING comes only after the full chain. */
  ghost predicate AlwaysChecked(start: State) {
    forall h: seq<Entry>, i: int :: WellFormed(h) && h[0].state == start && 0 <= i < |h| && h[i].state == TRADING ==> FullChain(h, i)
  }

  /** The way to TRADING from a start amid the chain. */
  function ShortCut(start: State): seq<Entry> {
    var last := [Entry(VALIDATING, false), Entry(TRADING, false)];
    match start
    case COLLECTING => [Entry(COLLECTING, false), Entry(ANALYZING, false), Entry(CONSTRUCTING, false)] + last
    case ANALYZING => [Entry(ANALYZING, false), Entry(CONSTRUCTING, false)] + last
    case CONSTRUCTING => [Entry(CONSTRUCTING, false)] + last
    case VALIDATING => last
    case _ => last[1..]
  }

  /** Which starts guarantee the chain: all but TRADING itself and the stages before it. */
  lemma AlwaysCheckedFrom(start: State)
    ensures AlwaysChecked(start) <==> start in SAFE_STARTS
  {
    if start in SAFE_STARTS {
      forall h: seq<Entry>, i: int | WellFormed(h) && h[0].state == start && 0 <= i < |h| && h[i].state == TRADING
        ensures FullChain(h, i)
      {
        TradingFollowsEveryCheck(h, i);
      }
    } else {
      var h := ShortCut(start);
      assert WellFormed(h) && h[0].state == start && h[|h| - 1].state == TRADING && !FullChain(h, |h| - 1);
    }
  }

  /** After an emergency stop only another stop or IDLE can follow, in any history. */
  lemma HaltedHolds(h: seq<Entry>, i: nat)
    requires WellFormed(h) && i + 1 < |h| && h[i].state == HALTED
    ensures h[i + 1].state in {IDLE, HALTED}
  {
    assert IsStep(h[i].state, h[i + 1]);
  }

  /** Trading resumes no earlier than six entries after an emergency stop: the whole chain of
      checks lies in between. */
  lemma TradingLongAfterHalt(h: seq<Entry>, i: nat, j: nat)
    requires WellFormed(h) && h[0].state in SAFE_STARTS
    requires i < j < |h| && h[i].state == HALTED && h[j].state == TRADING
    ensures i < j - 5
  {
    TradingFollowsEveryCheck(h, j);
  }

  /** The transitions by their targets: from where each state is entered. */
  lemma TransitionsByTarget(s: State, target: State)
    ensures var working := {COLLECTING, ANALYZING, CONSTRUCTING, VALIDATING, TRADING, RECONCILING};
            CanTransition(s, target) <==>
              match target
              case COLLECTING => s == IDLE
              case ANALYZING => s == COLLECTING
              case CONSTRUCTING => s == ANALYZING
              case VALIDATING => s == CONSTRUCTING
              case TRADING => s == VALIDATING
              case RECONCILING => s == TRADING
              case COMPLETED => s in {ANALYZING, RECONCILING}
              case IDLE => s in {ANALYZING, VALIDATING, COMPLETED, HALTED, ERROR}
              case ERROR => s in working
              case HALTED => s in working + {ERROR}
  {
  }
}
