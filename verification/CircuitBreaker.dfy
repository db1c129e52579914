/** The circuit breaker: its counters and transitions, and what they amount to over any run
    in which calls are admitted, report back late, in any order and in any later state.
  */
module CircuitBreaking {

  datatype Circuit = CLOSED | OPEN | HALF_OPEN

  datatype Config = Config(failureThreshold: int, recoveryTimeout: real, halfOpenMaxCalls: int)

  datatype Breaker = Breaker(
    circuit: Circuit,
    totalCalls: int,
    totalFailures: int,
    consecutiveFailures: int,
    lastFailureTime: real,
    lastSuccessTime: real,
    stateChangedAt: real,
    halfOpenCalls: int)

  datatype Verdict = Admitted | Rejected(remaining: real)

  function Fresh(now: real): Breaker {
    Breaker(CLOSED, 0, 0, 0, 0.0, 0.0, now, 0)
  }

  function TransitionTo(b: Breaker, circuit: Circuit, now: real): Breaker {
    var moved := b.(circuit := circuit, stateChangedAt := now);
    if circuit == HALF_OPEN then moved.(halfOpenCalls := 0) else moved
  }

  /** Reading the state lets an expired OPEN move on. */
  function Observed(c: Config, b: Breaker, now: real): Breaker {
    if b.circuit == OPEN && now - b.stateChangedAt >= c.recoveryTimeout then TransitionTo(b, HALF_OPEN, now) else b
  }

  function AfterSuccess(c: Config, b: Breaker, now: real): Breaker {
    var counted := b.(totalCalls := b.totalCalls + 1, consecutiveFailures := 0, lastSuccessTime := now);
    if b.circuit != HALF_OPEN then counted
    else
      var probed := counted.(halfOpenCalls := b.halfOpenCalls + 1);
      if probed.halfOpenCalls >= c.halfOpenMaxCalls then TransitionTo(probed, CLOSED, now) else probed
  }

  function AfterFailure(c: Config, b: Breaker, now: real, excluded: bool): Breaker {
    if excluded then b.(totalCalls := b.totalCalls + 1)
    else
      var counted := b.(totalCalls := b.totalCalls + 1, totalFailures := b.totalFailures + 1,
                        consecutiveFailures := b.consecutiveFailures + 1, lastFailureTime := now);
      if b.circuit == HALF_OPEN || (b.circuit == CLOSED && counted.consecutiveFailures >= c.failureThreshold)
      then TransitionTo(counted, OPEN, now)
      else counted
  }

  function Decide(c: Config, b: Breaker, now: real): Verdict {
    var seen := Observed(c, b, now);
    if seen.circuit == OPEN then
      var remaining := c.recoveryTimeout - (now - seen.stateChangedAt);
      Rejected(if remaining > 0.0 then remaining else 0.0)
    else if seen.circuit == HALF_OPEN && seen.halfOpenCalls >= c.halfOpenMaxCalls then Rejected(0.0)
    else Admitted
  }

  class CircuitBreaker {
    const config: Config
    var circuit: Circuit
    var totalCalls: int
    var totalFailures: int
    var consecutiveFailures: int
    var lastFailureTime: real
    var lastSuccessTime: real
    var stateChangedAt: real
    var halfOpenCalls: int

    constructor (config: Config, now: real)
      ensures this.config == config && Value() == Fresh(now)
    {
      this.config := config;
      circuit := CLOSED;
      totalCalls, totalFailures, consecutiveFailures, halfOpenCalls := 0, 0, 0, 0;
      lastFailureTime, lastSuccessTime, stateChangedAt := 0.0, 0.0, now;
    }

    function Value(): Breaker
      reads this
    {
      Breaker(circuit, totalCalls, totalFailures, consecutiveFailures,
              lastFailureTime, lastSuccessTime, stateChangedAt, halfOpenCalls)
    }

    method MoveTo(newCircuit: Circuit, now: real)
      modifies this
      ensures Value() == TransitionTo(old(Value()), newCircuit, now)
    {
      circuit := newCircuit;
      stateChangedAt := now;
      if newCircuit == HALF_OPEN {
        halfOpenCalls := 0;
      }
    }

    method State(now: real) returns (current: Circuit)
      modifies this
      ensures Value() == Observed(config, old(Value()), now) && current == circuit
    {
      if circuit == OPEN {
        var elapsed := now - stateChangedAt;
        if elapsed >= config.recoveryTimeout {
          MoveTo(HALF_OPEN, now);
        }
      }
      current := circuit;
    }

    method RecordSuccess(now: real)
      modifies this
      ensures Value() == AfterSuccess(config, old(Value()), now)
    {
      totalCalls := totalCalls + 1;
      consecutiveFailures := 0;
      lastSuccessTime := now;
      if circuit == HALF_OPEN {
        halfOpenCalls := halfOpenCalls + 1;
        if halfOpenCalls >= config.halfOpenMaxCalls {
          MoveTo(CLOSED, now);
        }
      }
    }

    method RecordFailure(now: real, excluded: bool)
      modifies this
      ensures Value() == AfterFailure(config, old(Value()), now, excluded)
    {
      if excluded {
        totalCalls := totalCalls + 1;
        return;
      }
      totalCalls := totalCalls + 1;
      totalFailures := totalFailures + 1;
      consecutiveFailures := consecutiveFailures + 1;
      lastFailureTime := now;
      if circuit == HALF_OPEN {
        MoveTo(OPEN, now);
      } else if circuit == CLOSED && consecutiveFailures >= config.failureThreshold {
        MoveTo(OPEN, now);
      }
    }

    method CheckState(now: real) returns (verdict: Verdict)
      modifies this
      ensures Value() == Observed(config, old(Value()), now)
      ensures verdict == Decide(config, old(Value()), now)
    {
      var current := State(now);
      if current == OPEN {
        var remaining := config.recoveryTimeout - (now - stateChangedAt);
        return Rejected(if remaining > 0.0 then remaining else 0.0);
      }
      if current == HALF_OPEN {
        if halfOpenCalls >= config.halfOpenMaxCalls {
          return Rejected(0.0);
        }
      }
      return Admitted;
    }
  }

  // ---- Runs ----

  /** What can happen to the breaker: a call asks to be let through, a call admitted earlier
      reports, or ends without reporting, or somebody reads the state. A decorated call that
      is cancelled is `Abandoned`; within the context manager a cancellation is a `Failure`. */
  datatype Kind = Ask | Success | Failure | Excluded | Abandoned | Read

  /** One entry of the history: what happened, when, between which states, and for a call
      that asked, whether it was let through. */
  datatype Event = Event(kind: Kind, at: real, before: Circuit, after: Circuit, admitted: bool)

  datatype System = System(breaker: Breaker, inFlight: nat, clock: real, history: seq<Event>)

  predicate Enabled(s: System, kind: Kind, at: real) {
    s.clock <= at && (kind.Ask? || kind.Read? || s.inFlight > 0)
  }

  function Step(c: Config, s: System, kind: Kind, at: real): System
    requires Enabled(s, kind, at)
  {
    var admitted := kind.Ask? && Decide(c, s.breaker, at) == Admitted;
    var next := match kind
      case Ask => Observed(c, s.breaker, at)
      case Success => AfterSuccess(c, s.breaker, at)
      case Failure => AfterFailure(c, s.breaker, at, false)
      case Excluded => AfterFailure(c, s.breaker, at, true)
      case Abandoned => s.breaker
      case Read => Observed(c, s.breaker, at);
    var inFlight := if admitted then s.inFlight + 1 else if kind.Ask? || kind.Read? then s.inFlight else s.inFlight - 1;
    System(next, inFlight, at, s.history + [Event(kind, at, s.breaker.circuit, next.circuit, admitted)])
  }

  datatype Input = Input(kind: Kind, at: real)

  function Initial(start: real): System {
    System(Fresh(start), 0, start, [])
  }

  predicate ValidRun(c: Config, s: System, run: seq<Input>)
    decreases |run|
  {
    run == []
    || (Enabled(s, run[0].kind, run[0].at) && ValidRun(c, Step(c, s, run[0].kind, run[0].at), run[1..]))
  }

  function After(c: Config, s: System, run: seq<Input>): System
    requires ValidRun(c, s, run)
    decreases |run|
  {
    if run == [] then s else After(c, Step(c, s, run[0].kind, run[0].at), run[1..])
  }

  /** `s` is what a new breaker has become after `run`. */
  ghost predicate Reached(c: Config, start: real, run: seq<Input>, s: System) {
    ValidRun(c, Initial(start), run) && s == After(c, Initial(start), run)
  }

  // ---- What the counters mean, read off the history ----

  /** Counted failures since the last success. */
  function Streak(h: seq<Event>): nat {
    if h == [] then 0
    else
      var last := h[|h| - 1];
      if last.kind.Success? then 0
      else Streak(h[..|h| - 1]) + (if last.kind.Failure? then 1 else 0)
  }

  /** All failures of the streak were counted in CLOSED. */
  predicate StreakInClosed(h: seq<Event>) {
    h == []
    || (var last := h[|h| - 1];
        last.kind.Success? || (StreakInClosed(h[..|h| - 1]) && (last.kind.Failure? ==> last.before == CLOSED)))
  }

  predicate Enters(e: Event, circuit: Circuit) {
    e.before != circuit && e.after == circuit
  }

  /** Successes since HALF_OPEN was last entered. */
  function Probes(h: seq<Event>): nat {
    if h == [] || Enters(h[|h| - 1], HALF_OPEN) then 0
    else Probes(h[..|h| - 1]) + (if h[|h| - 1].kind.Success? then 1 else 0)
  }

  /** No failure was counted since HALF_OPEN was last entered. */
  predicate CleanProbes(h: seq<Event>) {
    h == [] || Enters(h[|h| - 1], HALF_OPEN) || (CleanProbes(h[..|h| - 1]) && !h[|h| - 1].kind.Failure?)
  }

  datatype Tally = Admissions | Reports | Failures | Abandonments

  predicate Tallied(e: Event, tally: Tally) {
    match tally
    case Admissions => e.admitted
    case Reports => e.kind.Success? || e.kind.Failure? || e.kind.Excluded?
    case Failures => e.kind.Failure?
    case Abandonments => e.kind.Abandoned?
  }

  function Count(h: seq<Event>, tally: Tally): nat {
    if h == [] then 0 else Count(h[..|h| - 1], tally) + (if Tallied(h[|h| - 1], tally) then 1 else 0)
  }

  function Max1(n: int): int {
    if n < 1 then 1 else n
  }

  ghost predicate CountersInv(c: Config, s: System) {
    var b, h := s.breaker, s.history;
    && b.consecutiveFailures == Streak(h)
    && (b.circuit == CLOSED ==> Streak(h) < Max1(c.failureThreshold) && StreakInClosed(h))
    && (b.circuit == HALF_OPEN ==> b.halfOpenCalls == Probes(h) < Max1(c.halfOpenMaxCalls) && CleanProbes(h))
    && b.totalCalls == Count(h, Reports) && b.totalFailures == Count(h, Failures)
    && Count(h, Admissions) == Count(h, Reports) + Count(h, Abandonments) + s.inFlight
  }

  /** After an opening, either the breaker is still in it or the timeout has passed. */
  ghost predicate TimeInv(c: Config, s: System) {
    && (s.breaker.circuit == OPEN ==> s.breaker.stateChangedAt <= s.clock)
    && (forall i :: 0 <= i < |s.history| && Enters(s.history[i], OPEN) ==>
          || s.history[i].at + c.recoveryTimeout <= s.clock
          || (s.breaker.circuit == OPEN && s.breaker.stateChangedAt == s.history[i].at))
    && (forall i, j :: 0 <= i < j < |s.history| && Enters(s.history[i], OPEN) && s.history[j].admitted ==>
          s.history[i].at + c.recoveryTimeout <= s.history[j].at)
  }

  lemma StepKeepsCounters(c: Config, s: System, kind: Kind, at: real)
    requires CountersInv(c, s) && Enabled(s, kind, at)
    ensures CountersInv(c, Step(c, s, kind, at))
  {
    var s' := Step(c, s, kind, at);
    assert s'.history[..|s'.history| - 1] == s.history;
  }

  lemma StepKeepsTime(c: Config, s: System, kind: Kind, at: real)
    requires TimeInv(c, s) && Enabled(s, kind, at)
    ensures TimeInv(c, Step(c, s, kind, at))
  {
    var s' := Step(c, s, kind, at);
    var n := |s.history|;
    assert forall i :: 0 <= i < n ==> s'.history[i] == s.history[i];
    if s'.history[n].admitted {
      assert s'.breaker.circuit != OPEN;
    }
  }

  ghost predicate Inv(c: Config, s: System) {
    CountersInv(c, s) && TimeInv(c, s) && 0 <= s.breaker.consecutiveFailures <= s.breaker.totalFailures <= s.breaker.totalCalls
  }

  lemma {:induction false} RunKeepsInv(c: Config, s: System, run: seq<Input>)
    requires Inv(c, s) && ValidRun(c, s, run)
    ensures Inv(c, After(c, s, run))
    decreases |run|
  {
    if run != [] {
      StepKeepsCounters(c, s, run[0].kind, run[0].at);
      StepKeepsTime(c, s, run[0].kind, run[0].at);
      RunKeepsInv(c, Step(c, s, run[0].kind, run[0].at), run[1..]);
    }
  }

  lemma ReachedInv(c: Config, start: real, run: seq<Input>, s: System)
    requires Reached(c, start, run, s)
    ensures Inv(c, s)
  {
    RunKeepsInv(c, Initial(start), run);
  }

  // ---- The results ----

  /** CLOSED means fewer failures in a row than the threshold, and it is left exactly by the
      failure that completes the threshold, counted since the last success within CLOSED. */
  lemma TripsAtThreshold(c: Config, start: real, run: seq<Input>, s: System, kind: Kind, at: real)
    requires Reached(c, start, run, s) && Enabled(s, kind, at) && s.breaker.circuit == CLOSED
    ensures Streak(s.history) < Max1(c.failureThreshold) && StreakInClosed(s.history)
    ensures var h := Step(c, s, kind, at).history;
            && Step(c, s, kind, at).breaker.circuit
               == (if kind.Failure? && Streak(h) == Max1(c.failureThreshold) then OPEN else CLOSED)
            && StreakInClosed(h)
  {
    ReachedInv(c, start, run, s);
    var h := Step(c, s, kind, at).history;
    assert h[..|h| - 1] == s.history;
  }

  /** HALF_OPEN closes exactly at the required number of successes with no failure counted
      since it was entered, and opens again exactly at a counted failure. */
  lemma ClosesAfterProbes(c: Config, start: real, run: seq<Input>, s: System, kind: Kind, at: real)
    requires Reached(c, start, run, s) && Enabled(s, kind, at) && s.breaker.circuit == HALF_OPEN
    ensures CleanProbes(s.history)
    ensures var h := Step(c, s, kind, at).history;
            Step(c, s, kind, at).breaker.circuit
            == (if kind.Failure? then OPEN
                else if kind.Success? && Probes(s.history) + 1 == Max1(c.halfOpenMaxCalls) then CLOSED
                else HALF_OPEN)
  {
    ReachedInv(c, start, run, s);
  }

  /** OPEN is left only towards HALF_OPEN, by a question or a look after the timeout. */
  lemma OpenOnlyHalfOpens(c: Config, s: System, kind: Kind, at: real)
    requires Enabled(s, kind, at) && s.breaker.circuit == OPEN
    ensures Step(c, s, kind, at).breaker.circuit
         == (if (kind.Ask? || kind.Read?) && at - s.breaker.stateChangedAt >= c.recoveryTimeout then HALF_OPEN else OPEN)
  {
  }

  /** While nobody asks or looks after the timeout, OPEN lasts: whatever late outcomes come in,
      the breaker stays open since the same instant and admits nothing. */
  lemma {:induction false} OpenLasts(c: Config, s: System, run: seq<Input>)
    requires ValidRun(c, s, run) && s.breaker.circuit == OPEN
    requires forall i :: 0 <= i < |run| && (run[i].kind.Ask? || run[i].kind.Read?) ==>
               run[i].at < s.breaker.stateChangedAt + c.recoveryTimeout
    ensures var end := After(c, s, run);
            && end.breaker.circuit == OPEN && end.breaker.stateChangedAt == s.breaker.stateChangedAt
            && Count(end.history, Admissions) == Count(s.history, Admissions)
    decreases |run|
  {
    if run != [] {
      OpenOnlyHalfOpens(c, s, run[0].kind, run[0].at);
      var next := Step(c, s, run[0].kind, run[0].at);
      assert next.history[..|next.history| - 1] == s.history;
      OpenLasts(c, next, run[1..]);
    }
  }

  /** No call is admitted within the recovery timeout of any opening before it. */
  lemma NothingAdmittedWhileRecovering(c: Config, start: real, run: seq<Input>, s: System, i: nat, j: nat)
    requires Reached(c, start, run, s) && i < j < |s.history|
    requires Enters(s.history[i], OPEN) && s.history[j].admitted
    ensures s.history[j].at >= s.history[i].at + c.recoveryTimeout
  {
    ReachedInv(c, start, run, s);
  }

  /** The second rejection, for a full HALF_OPEN, fires exactly when the breaker is configured
      to let no probe through at all; with a positive limit it is dead code. */
  lemma HalfOpenRejectsIffNoProbes(c: Config, start: real, run: seq<Input>, s: System, at: real)
    requires Reached(c, start, run, s) && Enabled(s, Ask, at)
    requires Observed(c, s.breaker, at).circuit == HALF_OPEN
    ensures Decide(c, s.breaker, at) != Admitted <==> c.halfOpenMaxCalls < 1
  {
    ReachedInv(c, start, run, s);
  }

  /** Every admitted call is still in flight, counted once in the total, or abandoned: the
      total falls short of the finished calls by those that were cancelled. */
  lemma CallsConserved(c: Config, start: real, run: seq<Input>, s: System)
    requires Reached(c, start, run, s)
    ensures Count(s.history, Admissions) == s.breaker.totalCalls + s.inFlight + Count(s.history, Abandonments)
    ensures s.breaker.totalCalls == Count(s.history, Reports) && s.breaker.totalFailures == Count(s.history, Failures)
    ensures s.breaker.consecutiveFailures <= s.breaker.totalFailures <= s.breaker.totalCalls
  {
    ReachedInv(c, start, run, s);
  }

  function Asks(n: nat, at: real): seq<Input> {
    seq(n, _ => Input(Ask, at))
  }

  /** The half-open limit counts successes, not admissions: as long as it is not reached, any
      number of further probes gets in at once. */
  lemma {:induction false} ProbesAreNotCapped(c: Config, s: System, n: nat)
    requires s.breaker.circuit == HALF_OPEN && s.breaker.halfOpenCalls < c.halfOpenMaxCalls
    ensures ValidRun(c, s, Asks(n, s.clock))
    ensures var end := After(c, s, Asks(n, s.clock));
            end.breaker == s.breaker && end.inFlight == s.inFlight + n
    decreases n
  {
    if n > 0 {
      assert Asks(n, s.clock)[1..] == Asks(n - 1, s.clock);
      ProbesAreNotCapped(c, Step(c, s, Ask, s.clock), n - 1);
    }
  }

  // ---- Who is admitted ----

  /** The instant that the timeout counts from is that of the last change of state. */
  function LastChange(h: seq<Event>, start: real): real {
    if h == [] then start
    else if h[|h| - 1].before != h[|h| - 1].after then h[|h| - 1].at
    else LastChange(h[..|h| - 1], start)
  }

  lemma {:induction false} ChangedAtLastChange(c: Config, s: System, run: seq<Input>, start: real)
    requires ValidRun(c, s, run) && s.breaker.stateChangedAt == LastChange(s.history, start)
    ensures After(c, s, run).breaker.stateChangedAt == LastChange(After(c, s, run).history, start)
    decreases |run|
  {
    if run != [] {
      var next := Step(c, s, run[0].kind, run[0].at);
      assert next.history[..|next.history| - 1] == s.history;
      ChangedAtLastChange(c, next, run[1..], start);
    }
  }

  /** A call is admitted exactly if the breaker is CLOSED, or any probe is allowed at all and it
      is HALF_OPEN, or OPEN and last changed its state the recovery timeout ago. */
  lemma AdmittedIff(c: Config, start: real, run: seq<Input>, s: System, at: real)
    requires Reached(c, start, run, s) && Enabled(s, Ask, at)
    ensures var h := Step(c, s, Ask, at).history;
            h[|h| - 1].admitted <==>
              || s.breaker.circuit == CLOSED
              || (c.halfOpenMaxCalls >= 1 && (s.breaker.circuit == HALF_OPEN || at - LastChange(s.history, start) >= c.recoveryTimeout))
  {
    ReachedInv(c, start, run, s);
    ChangedAtLastChange(c, Initial(start), run, start);
  }

  /** The time a call refused by OPEN is told to wait is exact: asked again before it is over
      the breaker refuses, and when it is over it is no longer OPEN. */
  lemma RemainingIsExact(c: Config, b: Breaker, at: real, later: real)
    requires b.circuit == OPEN && at - b.stateChangedAt < c.recoveryTimeout && at <= later
    ensures Decide(c, b, at).Rejected? && Decide(c, b, at).remaining > 0.0
    ensures later < at + Decide(c, b, at).remaining <==> Observed(c, b, later).circuit == OPEN
    ensures later < at + Decide(c, b, at).remaining ==> Decide(c, b, later).Rejected?
  {
  }
}
