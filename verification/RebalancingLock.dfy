/** The rebalancing endpoint: an executed-today check, a Redis lock with a time to live, and
    a background task that marks the day and releases the lock.

    Requests are interleaved step by step with a clock. A delete of the lock key is
    unconditional, as in the code, whoever holds the lock at that time.
  */
module RebalancingLock {
  import opened Common
  import opened SchedulerIdempotency

  const LOCK_TTL := 300 * SECOND
  const EVENT := "API_REBALANCING"

  /** The lock key. The owner is remembered for the proofs; the code never looks at it. */
  datatype Lock = Lock(owner: nat, expiry: int)

  /** Where a request is. `Preparing`, `Background` and `Closing` lie between acquiring the
      lock and releasing it; `Raised` is the outer exception handler, after the lock has
      already been given up or was never taken. */
  datatype Pc =
    | Arrived
    | Passed
    | Preparing(since: int)
    | Background(since: int)
    | Closing(since: int)
    | Raised
    | Done

  datatype Request = Request(pc: Pc, force: bool, checkedAt: Option<int>, markedAt: Option<int>)

  datatype State = State(now: int, lock: Option<Lock>, store: Store, requests: map<nat, Request>)

  /** `fault` means that Redis did not carry out this operation. */
  datatype Action =
    | Tick(elapsed: nat)
    | Arrive(r: nat, force: bool)
    | CheckExecuted(r: nat, fault: bool)
    | TryLock(r: nat)
    | TryLockRaises(r: nat)
    | ReturnEarly(r: nat, fault: bool)
    | PrepareRaises(r: nat, fault: bool)
    | StartBackground(r: nat)
    | RunAndMark(r: nat, fault: bool)
    | RunFails(r: nat)
    | Release(r: nat, fault: bool)
    | OuterDelete(r: nat, fault: bool)

  function Initial(now: int): State {
    State(now, None, map[], map[])
  }

  predicate Enabled(s: State, a: Action) {
    match a
    case Tick(_) => true
    case Arrive(r, _) => r !in s.requests
    case CheckExecuted(r, _) => r in s.requests && s.requests[r].pc.Arrived?
    case TryLock(r) => r in s.requests && s.requests[r].pc.Passed?
    case TryLockRaises(r) => r in s.requests && s.requests[r].pc.Passed?
    case ReturnEarly(r, _) => r in s.requests && s.requests[r].pc.Preparing?
    case PrepareRaises(r, _) => r in s.requests && s.requests[r].pc.Preparing?
    case StartBackground(r) => r in s.requests && s.requests[r].pc.Preparing?
    case RunAndMark(r, _) => r in s.requests && s.requests[r].pc.Background?
    case RunFails(r) => r in s.requests && s.requests[r].pc.Background?
    case Release(r, _) => r in s.requests && s.requests[r].pc.Closing?
    case OuterDelete(r, _) => r in s.requests && s.requests[r].pc.Raised?
  }

  function MoveTo(s: State, r: nat, pc: Pc): State
    requires r in s.requests
  {
    s.(requests := s.requests[r := s.requests[r].(pc := pc)])
  }

  function Delete(s: State, fault: bool): State {
    if fault then s else s.(lock := None)
  }

  function Today(s: State): Key {
    Key(EVENT, DateOf(s.now))
  }

  function Step(s: State, a: Action): State
    requires Enabled(s, a)
  {
    match a
    case Tick(elapsed) => s.(now := s.now + elapsed)
    case Arrive(r, force) => s.(requests := s.requests[r := Request(Arrived, force, None, None)])
    case CheckExecuted(r, fault) =>
      if s.requests[r].force then MoveTo(s, r, Passed)
      else if !fault && Live(s.store, Today(s), s.now) then MoveTo(s, r, Done)
      else
        var checkedAt := if fault then None else Some(s.now);
        s.(requests := s.requests[r := s.requests[r].(pc := Passed, checkedAt := checkedAt)])
    case TryLock(r) =>
      if s.lock.Some? && s.now < s.lock.value.expiry then MoveTo(s, r, Done)
      else MoveTo(s, r, Preparing(s.now)).(lock := Some(Lock(r, s.now + LOCK_TTL)))
    case TryLockRaises(r) => MoveTo(s, r, Raised)
    case ReturnEarly(r, fault) => Delete(MoveTo(s, r, Done), fault)
    case PrepareRaises(r, fault) => Delete(MoveTo(s, r, Raised), fault)
    case StartBackground(r) => MoveTo(s, r, Background(s.requests[r].pc.since))
    case RunAndMark(r, fault) =>
      if fault then MoveTo(s, r, Closing(s.requests[r].pc.since))
      else
        var done := s.requests[r].(pc := Closing(s.requests[r].pc.since), markedAt := Some(s.now));
        s.(requests := s.requests[r := done], store := MarkExecuted(s.store, Today(s), s.now))
    case RunFails(r) => MoveTo(s, r, Closing(s.requests[r].pc.since))
    case Release(r, fault) => Delete(MoveTo(s, r, Done), fault)
    case OuterDelete(r, fault) => Delete(MoveTo(s, r, Done), fault)
  }

  predicate ValidRun(s: State, run: seq<Action>)
    decreases |run|
  {
    run == [] || (Enabled(s, run[0]) && ValidRun(Step(s, run[0]), run[1..]))
  }

  function After(s: State, run: seq<Action>): State
    requires ValidRun(s, run)
    decreases |run|
  {
    if run == [] then s else After(Step(s, run[0]), run[1..])
  }

  // ---- Mutual exclusion ----

  predicate Holding(s: State, r: nat) {
    r in s.requests && (s.requests[r].pc.Preparing? || s.requests[r].pc.Background? || s.requests[r].pc.Closing?)
  }

  /** Every holder is still within its time to live. */
  ghost predicate Timely(s: State) {
    forall r :: Holding(s, r) ==> s.now < s.requests[r].pc.since + LOCK_TTL
  }

  predicate Raises(a: Action) {
    a.TryLockRaises? || a.PrepareRaises?
  }

  /** No exception, and the clock stands still. */
  predicate Still(run: seq<Action>) {
    forall a :: a in run ==> !Raises(a) && !a.Tick?
  }

  ghost predicate AtMostOneHolds(s: State) {
    forall r1, r2 :: Holding(s, r1) && Holding(s, r2) ==> r1 == r2
  }

  /** Along the run no request raises and no holder is ever late. */
  ghost predicate Orderly(s: State, run: seq<Action>)
    requires ValidRun(s, run)
    decreases |run|
  {
    Timely(s) && (run == [] || (!Raises(run[0]) && Orderly(Step(s, run[0]), run[1..])))
  }

  /** Every holder's lock is in place, so that there is at most one. */
  ghost predicate LocksInPlace(s: State) {
    forall r :: Holding(s, r) ==> s.lock == Some(Lock(r, s.requests[r].pc.since + LOCK_TTL))
  }

  /** And no request waits to delete it from outside. */
  ghost predicate LockInv(s: State) {
    && LocksInPlace(s)
    && (forall r :: r in s.requests ==> !s.requests[r].pc.Raised?)
  }

  /** Who holds after a step: the one that acquired, or a holder that did not give up. */
  lemma HoldersChange(s: State, a: Action, r: nat)
    requires Enabled(s, a) && Holding(Step(s, a), r)
    ensures var s' := Step(s, a);
            || (a == TryLock(r) && s'.lock == Some(Lock(r, s'.requests[r].pc.since + LOCK_TTL)))
            || (Holding(s, r) && s'.requests[r].pc.since == s.requests[r].pc.since
                && a != ReturnEarly(r, false) && a != Release(r, false))
  {
  }

  /** What a step without exceptions does to the lock. */
  lemma LockChange(s: State, a: Action)
    requires Enabled(s, a) && !Raises(a)
    ensures var s' := Step(s, a);
            || s'.lock == s.lock
            || (a.TryLock? && (s.lock.None? || s.lock.value.expiry <= s.now))
            || ((a.ReturnEarly? || a.Release?) && Holding(s, a.r) && !Holding(s', a.r))
            || (a.OuterDelete? && s.requests[a.r].pc.Raised?)
  {
  }

  lemma StepKeepsLock(s: State, a: Action)
    requires LockInv(s) && Timely(s) && Enabled(s, a) && !Raises(a)
    ensures LockInv(Step(s, a))
  {
    var s' := Step(s, a);
    LockChange(s, a);
    forall r | Holding(s', r)
      ensures s'.lock == Some(Lock(r, s'.requests[r].pc.since + LOCK_TTL))
    {
      HoldersChange(s, a, r);
    }
    forall r | r in s'.requests
      ensures !s'.requests[r].pc.Raised?
    {
      assert r in s.requests ==> !s.requests[r].pc.Raised?;
    }
  }

  lemma {:induction false} OrderlyRunKeepsLock(s: State, run: seq<Action>)
    requires LockInv(s) && ValidRun(s, run) && Orderly(s, run)
    ensures LockInv(After(s, run))
    decreases |run|
  {
    if run != [] {
      StepKeepsLock(s, run[0]);
      OrderlyRunKeepsLock(Step(s, run[0]), run[1..]);
    }
  }

  /** In any interleaving where nobody raises and every holder finishes in time, at most one
      rebalancing lies between acquiring the lock and releasing it. */
  lemma MutualExclusion(now: int, run: seq<Action>)
    requires ValidRun(Initial(now), run) && Orderly(Initial(now), run)
    ensures AtMostOneHolds(After(Initial(now), run))
  {
    OrderlyRunKeepsLock(Initial(now), run);
  }

  // ---- Once a day ----

  /** A day once marked stays marked until its last second. */
  ghost predicate KeysInv(s: State) {
    forall r, t :: MarkedOn(s, r, DateOf(t)) && s.now <= t <= NextMidnight(t) - SECOND ==> Live(s.store, Key(EVENT, DateOf(t)), t)
  }

  predicate MarkedOn(s: State, r: nat, date: int) {
    r in s.requests && s.requests[r].markedAt.Some? && DateOf(s.requests[r].markedAt.value) == date
  }

  /** Checks and marks lie in the past. */
  ghost predicate PastInv(s: State) {
    forall r :: r in s.requests ==>
      && (s.requests[r].markedAt.Some? ==> s.requests[r].markedAt.value <= s.now)
      && (s.requests[r].checkedAt.Some? ==> s.requests[r].checkedAt.value <= s.now)
  }

  /** If `second`'s answered check came after `first`'s mark on the same day, it fell into the
      last second of that day. */
  predicate CheckBeforeMark(first: Request, second: Request) {
    first.markedAt.Some? && second.checkedAt.Some?
    && first.markedAt.value < second.checkedAt.value && DateOf(first.markedAt.value) == DateOf(second.checkedAt.value)
    ==> second.checkedAt.value > NextMidnight(second.checkedAt.value) - SECOND
  }

  ghost predicate PairsInv(s: State) {
    forall i, j :: i in s.requests && j in s.requests ==> CheckBeforeMark(s.requests[i], s.requests[j])
  }

  ghost predicate MarkInv(s: State) {
    KeysInv(s) && PastInv(s) && PairsInv(s)
  }

  lemma StepKeepsKeys(s: State, a: Action)
    requires KeysInv(s) && Enabled(s, a)
    ensures KeysInv(Step(s, a))
  {
    var s' := Step(s, a);
    forall r, t | MarkedOn(s', r, DateOf(t)) && s'.now <= t <= NextMidnight(t) - SECOND
      ensures Live(s'.store, Key(EVENT, DateOf(t)), t)
    {
      if a.RunAndMark? && !a.fault && DateOf(s.now) == DateOf(t) {
        LiveUntilLastSecond(s.now, t);
      } else {
        assert MarkedOn(s, r, DateOf(t));
      }
    }
  }

  /** A step touches the stamps of one request, and only by a check or a mark at this instant. */
  lemma StampsChange(s: State, a: Action, r: nat)
    requires Enabled(s, a) && r in Step(s, a).requests
    ensures var q' := Step(s, a).requests[r];
            if r !in s.requests then q'.markedAt.None? && q'.checkedAt.None?
            else
              var q := s.requests[r];
              && (q'.markedAt == q.markedAt || (a.RunAndMark? && q'.markedAt == Some(s.now)))
              && (q'.checkedAt == q.checkedAt || q'.checkedAt.None?
                  || (a.CheckExecuted? && q'.checkedAt == Some(s.now) && !Live(s.store, Today(s), s.now)))
  {
  }

  lemma StepKeepsPast(s: State, a: Action)
    requires PastInv(s) && Enabled(s, a)
    ensures PastInv(Step(s, a))
  {
    forall r | r in Step(s, a).requests
      ensures var q := Step(s, a).requests[r];
              && (q.markedAt.Some? ==> q.markedAt.value <= Step(s, a).now)
              && (q.checkedAt.Some? ==> q.checkedAt.value <= Step(s, a).now)
    {
      StampsChange(s, a, r);
    }
  }

  /** A pair of requests stays in order: a new mark is not before any check, and a new check
      comes after a mark of its day only in the last second. */
  lemma PairStaysInOrder(s: State, i: nat, j: nat, first: Request, second: Request)
    requires KeysInv(s) && PastInv(s) && i in s.requests && j in s.requests && CheckBeforeMark(s.requests[i], s.requests[j])
    requires first.markedAt == s.requests[i].markedAt || first.markedAt == Some(s.now)
    requires second.checkedAt == s.requests[j].checkedAt || second.checkedAt.None?
             || (second.checkedAt == Some(s.now) && !Live(s.store, Today(s), s.now) && first.markedAt == s.requests[i].markedAt)
    ensures CheckBeforeMark(first, second)
  {
    if second.checkedAt == Some(s.now) && first.markedAt.Some? && first.markedAt.value < s.now
       && DateOf(first.markedAt.value) == DateOf(s.now) {
      assert MarkedOn(s, i, DateOf(s.now));
    }
  }

  lemma StepKeepsPairs(s: State, a: Action)
    requires MarkInv(s) && Enabled(s, a)
    ensures PairsInv(Step(s, a))
  {
    var s' := Step(s, a);
    forall i, j | i in s'.requests && j in s'.requests
      ensures CheckBeforeMark(s'.requests[i], s'.requests[j])
    {
      StampsChange(s, a, i);
      StampsChange(s, a, j);
      if i in s.requests && j in s.requests {
        PairStaysInOrder(s, i, j, s'.requests[i], s'.requests[j]);
      }
    }
  }

  lemma StepKeepsMarks(s: State, a: Action)
    requires MarkInv(s) && Enabled(s, a)
    ensures MarkInv(Step(s, a))
  {
    StepKeepsKeys(s, a);
    StepKeepsPast(s, a);
    StepKeepsPairs(s, a);
  }

  lemma {:induction false} RunKeepsMarks(s: State, run: seq<Action>)
    requires MarkInv(s) && ValidRun(s, run)
    ensures MarkInv(After(s, run))
    decreases |run|
  {
    if run != [] {
      StepKeepsMarks(s, run[0]);
      RunKeepsMarks(Step(s, run[0]), run[1..]);
    }
  }

  /** Two requests of one day of which the second was not forced and whose check was answered:
      if both get to mark the day, the second's check did not come after the first's mark,
      unless it was made in the last second of the day. Holds in every interleaving, with
      late holders and exceptions. */
  lemma SecondRunCheckedBeforeFirstMark(now: int, run: seq<Action>, first: nat, second: nat)
    requires ValidRun(Initial(now), run)
    requires var s := After(Initial(now), run);
             && first in s.requests && second in s.requests
             && s.requests[first].markedAt.Some? && s.requests[second].checkedAt.Some?
             && DateOf(s.requests[first].markedAt.value) == DateOf(s.requests[second].checkedAt.value)
    ensures var s := After(Initial(now), run);
            var marked, checked := s.requests[first].markedAt.value, s.requests[second].checkedAt.value;
            checked <= marked || checked > NextMidnight(checked) - SECOND
  {
    RunKeepsMarks(Initial(now), run);
    var s := After(Initial(now), run);
    assert CheckBeforeMark(s.requests[first], s.requests[second]);
  }

  // ---- What happens otherwise ----

  lemma OneMoreStep(s: State, a: Action, rest: seq<Action>)
    requires Enabled(s, a) && ValidRun(Step(s, a), rest)
    ensures ValidRun(s, [a] + rest) && After(s, [a] + rest) == After(Step(s, a), rest)
  {
    assert ([a] + rest)[1..] == rest;
  }

  lemma {:induction false} RunsCompose(s: State, run1: seq<Action>, run2: seq<Action>)
    requires ValidRun(s, run1) && ValidRun(After(s, run1), run2)
    ensures ValidRun(s, run1 + run2) && After(s, run1 + run2) == After(After(s, run1), run2)
    decreases |run1|
  {
    if run1 == [] {
      assert run1 + run2 == run2;
    } else {
      RunsCompose(Step(s, run1[0]), run1[1..], run2);
      assert (run1 + run2)[1..] == run1[1..] + run2;
    }
  }

  /** A forced request comes in and takes the free or expired lock. */
  lemma Acquire(s: State, r: nat) returns (run: seq<Action>)
    requires r !in s.requests && (s.lock.None? || s.lock.value.expiry <= s.now)
    ensures ValidRun(s, run) && Still(run)
    ensures After(s, run)
         == s.(lock := Some(Lock(r, s.now + LOCK_TTL)), requests := s.requests[r := Request(Preparing(s.now), true, None, None)])
  {
    var s1 := Step(s, Arrive(r, true));
    var s2 := Step(s1, CheckExecuted(r, false));
    OneMoreStep(s2, TryLock(r), []);
    OneMoreStep(s1, CheckExecuted(r, false), [TryLock(r)]);
    run := [Arrive(r, true)] + ([CheckExecuted(r, false)] + [TryLock(r)]);
    OneMoreStep(s, Arrive(r, true), [CheckExecuted(r, false)] + [TryLock(r)]);
    assert s1.requests[r := Request(Preparing(s.now), true, None, None)] == s.requests[r := Request(Preparing(s.now), true, None, None)];
    assert After(s2, [TryLock(r)]) == Step(s2, TryLock(r));
    assert Step(s2, TryLock(r)).requests == s.requests[r := Request(Preparing(s.now), true, None, None)];
  }

  lemma Unused(taken: set<nat>) returns (r: nat)
    ensures r !in taken
  {
    r := 0;
    var below := {};
    while r in taken
      invariant below <= taken && |below| == r && forall k :: k in below <==> 0 <= k < r
      decreases taken - below
    {
      below := below + {r};
      r := r + 1;
    }
  }

  lemma StillIsTimely(s: State, a: Action)
    requires Timely(s) && Enabled(s, a) && !a.Tick?
    ensures Timely(Step(s, a))
  {
  }

  /** At one instant nobody becomes late. */
  lemma {:induction false} StillIsOrderly(s: State, run: seq<Action>)
    requires Timely(s) && ValidRun(s, run) && Still(run)
    ensures Orderly(s, run)
    decreases |run|
  {
    if run != [] {
      assert run[0] in run && forall a :: a in run[1..] ==> a in run;
      StillIsTimely(s, run[0]);
      StillIsOrderly(Step(s, run[0]), run[1..]);
    }
  }

  /** The exception handler's delete lets a new request in beside every holder. */
  lemma DeleteAndAcquire(s: State, q: nat, r: nat) returns (run: seq<Action>)
    requires q in s.requests && s.requests[q].pc.Raised? && r !in s.requests
    ensures ValidRun(s, run) && Still(run)
    ensures Holding(After(s, run), r) && forall h :: Holding(s, h) ==> Holding(After(s, run), h)
  {
    var s1 := Step(s, OuterDelete(q, false));
    var acquire := Acquire(s1, r);
    OneMoreStep(s, OuterDelete(q, false), acquire);
    run := [OuterDelete(q, false)] + acquire;
  }

  /** Everybody's lock runs out when nobody holds it. */
  lemma WaitForLock(s: State) returns (wait: nat)
    requires forall r :: !Holding(s, r)
    ensures var s' := Step(s, Tick(wait)); Timely(s') && (s'.lock.None? || s'.lock.value.expiry <= s'.now)
  {
    wait := if s.lock.Some? && s.now < s.lock.value.expiry then s.lock.value.expiry - s.now else 0;
    assert forall r :: Holding(Step(s, Tick(wait)), r) ==> Holding(s, r);
  }

  /** From any state with everyone in time and one request in its exception handler, two come
      to hold, with no further exception and nobody late. */
  lemma RaisedLetsTwoHold(s: State, q: nat) returns (run: seq<Action>)
    requires Timely(s) && q in s.requests && s.requests[q].pc.Raised?
    ensures ValidRun(s, run) && Orderly(s, run) && !AtMostOneHolds(After(s, run))
  {
    if h :| Holding(s, h) {
      var r := Unused(s.requests.Keys);
      run := DeleteAndAcquire(s, q, r);
      StillIsOrderly(s, run);
    } else {
      var wait := WaitForLock(s);
      var s1 := Step(s, Tick(wait));
      var r1 := Unused(s1.requests.Keys);
      var first := Acquire(s1, r1);
      var s2 := After(s1, first);
      var r2 := Unused(s2.requests.Keys);
      var second := DeleteAndAcquire(s2, q, r2);
      RunsCompose(s1, first, second);
      StillIsOrderly(s1, first + second);
      OneMoreStep(s, Tick(wait), first + second);
      run := [Tick(wait)] + (first + second);
      assert run[1..] == first + second;
      assert Holding(s2, r1) && Holding(After(s, run), r1) && Holding(After(s, run), r2);
    }
  }

  /** In no orderly continuation two requests hold. */
  ghost predicate Excludes(s: State) {
    forall run :: ValidRun(s, run) && Orderly(s, run) ==> AtMostOneHolds(After(s, run))
  }

  /** With every holder in time and its lock in place, exclusion lasts, over all continuations
      without a further exception or a late holder, exactly if no request is in its exception
      handler. */
  lemma ExclusionIffNoneRaised(s: State)
    requires Timely(s) && LocksInPlace(s)
    ensures Excludes(s) <==> forall q :: q in s.requests ==> !s.requests[q].pc.Raised?
  {
    if q :| q in s.requests && s.requests[q].pc.Raised? {
      var run := RaisedLetsTwoHold(s, q);
    } else {
      forall run | ValidRun(s, run) && Orderly(s, run)
        ensures AtMostOneHolds(After(s, run))
      {
        OrderlyRunKeepsLock(s, run);
      }
    }
  }

  /** So every exception in an orderly state breaks exclusion. */
  lemma RaisingBreaksExclusion(s: State, a: Action) returns (run: seq<Action>)
    requires Timely(s) && Enabled(s, a) && Raises(a)
    ensures ValidRun(Step(s, a), run) && Orderly(Step(s, a), run) && !AtMostOneHolds(After(Step(s, a), run))
  {
    StillIsTimely(s, a);
    run := RaisedLetsTwoHold(Step(s, a), a.r);
  }

  /** Such exceptions do come up: one after acquiring, in the first request of all. */
  lemma RaisingAfterAcquiring(now: int) returns (run: seq<Action>)
    ensures ValidRun(Initial(now), run) && Orderly(Initial(now), run)
    ensures Enabled(After(Initial(now), run), PrepareRaises(0, false))
    ensures !Excludes(Step(After(Initial(now), run), PrepareRaises(0, false)))
  {
    run := Acquire(Initial(now), 0);
    StillIsOrderly(Initial(now), run);
    var after := RaisingBreaksExclusion(After(Initial(now), run), PrepareRaises(0, false));
  }

  /** And one from the locking call itself, of a request that never held the lock. */
  lemma RaisingBeforeAcquiring(now: int) returns (run: seq<Action>)
    ensures ValidRun(Initial(now), run) && Orderly(Initial(now), run)
    ensures Enabled(After(Initial(now), run), TryLockRaises(0))
    ensures !Excludes(Step(After(Initial(now), run), TryLockRaises(0)))
  {
    var s := Initial(now);
    var s1 := Step(s, Arrive(0, true));
    OneMoreStep(s1, CheckExecuted(0, false), []);
    OneMoreStep(s, Arrive(0, true), [CheckExecuted(0, false)]);
    run := [Arrive(0, true)] + [CheckExecuted(0, false)];
    assert After(s, run) == Step(s1, CheckExecuted(0, false));
    StillIsOrderly(s, run);
    var after := RaisingBreaksExclusion(After(s, run), TryLockRaises(0));
  }

  /** In no continuation at the same instant and without exceptions two requests hold. */
  ghost predicate ExcludesAtOnce(s: State) {
    forall run :: ValidRun(s, run) && Still(run) ==> AtMostOneHolds(After(s, run))
  }

  /** The time to live is what exclusion rests on: as soon as a holder is late, and not before,
      another request can join it. */
  lemma ExclusionIffTimely(s: State)
    requires LockInv(s)
    ensures ExcludesAtOnce(s) <==> Timely(s)
  {
    if Timely(s) {
      forall run | ValidRun(s, run) && Still(run)
        ensures AtMostOneHolds(After(s, run))
      {
        StillIsOrderly(s, run);
        OrderlyRunKeepsLock(s, run);
      }
    } else {
      var h :| Holding(s, h) && s.now >= s.requests[h].pc.since + LOCK_TTL;
      var r := Unused(s.requests.Keys);
      var run := Acquire(s, r);
      assert Holding(After(s, run), h) && Holding(After(s, run), r);
    }
  }

  /** Late holders do come up: one that holds on until its lock runs out. */
  lemma OverrunBreaksExclusion(now: int) returns (run: seq<Action>)
    ensures ValidRun(Initial(now), run) && !ExcludesAtOnce(After(Initial(now), run))
  {
    var s := Initial(now);
    var acquire := Acquire(s, 0);
    var s1 := After(s, acquire);
    OneMoreStep(s1, Tick(LOCK_TTL), []);
    RunsCompose(s, acquire, [Tick(LOCK_TTL)]);
    run := acquire + [Tick(LOCK_TTL)];
    var late := Step(s1, Tick(LOCK_TTL));
    assert [Tick(LOCK_TTL)] == [Tick(LOCK_TTL)] + [];
    assert Holding(late, 0);
    ExclusionIffTimely(late);
  }

  /** The exemption of the day's last second is needed: of a day marked earlier than a minute
      before midnight, and not at a whole second before it, the last instant no longer has the
      key, and an unforced check made then passes. */
  lemma LastInstantPassesAgain(now: int) returns (run: seq<Action>)
    requires var left := NextMidnight(now) - now; left % SECOND != 0 && left >= 60 * SECOND
    ensures ValidRun(Initial(now), run)
    ensures var s := After(Initial(now), run);
            && 0 in s.requests && 1 in s.requests && !s.requests[1].force && s.requests[1].pc.Passed?
            && s.requests[0].markedAt == Some(now) && s.requests[1].checkedAt == Some(NextMidnight(now) - 1)
            && now < NextMidnight(now) - 1 && DateOf(NextMidnight(now) - 1) == DateOf(now)
  {
    LastInstantUncovered(now);
    var s := Initial(now);
    var acquire := Acquire(s, 0);
    var s1 := After(s, acquire);
    var s2 := Step(s1, StartBackground(0));
    var s3 := Step(s2, RunAndMark(0, false));
    var wait := NextMidnight(now) - 1 - now;
    var s4 := Step(s3, Tick(wait));
    var s5 := Step(s4, Arrive(1, false));
    OneMoreStep(s5, CheckExecuted(1, false), []);
    var r5 := [CheckExecuted(1, false)] + [];
    OneMoreStep(s4, Arrive(1, false), r5);
    var r4 := [Arrive(1, false)] + r5;
    OneMoreStep(s3, Tick(wait), r4);
    var r3 := [Tick(wait)] + r4;
    OneMoreStep(s2, RunAndMark(0, false), r3);
    var r2 := [RunAndMark(0, false)] + r3;
    OneMoreStep(s1, StartBackground(0), r2);
    var r1 := [StartBackground(0)] + r2;
    RunsCompose(s, acquire, r1);
    run := acquire + r1;
  }

  lemma LastInstantUncovered(now: int)
    requires var left := NextMidnight(now) - now; left % SECOND != 0 && left >= 60 * SECOND
    ensures Expiry(now) <= NextMidnight(now) - 1
    ensures now < NextMidnight(now) - 1 && DateOf(NextMidnight(now) - 1) == DateOf(now)
  {
    var left := NextMidnight(now) - now;
    assert left == (left / SECOND) * SECOND + left % SECOND;
  }

  // ---- The lock is given back ----

  /** Nobody raises, every delete is carried out, and no holder is ever late. */
  ghost predicate Diligent(s: State, run: seq<Action>)
    requires ValidRun(s, run)
    decreases |run|
  {
    Timely(s) && (run == [] || (!Raises(run[0]) && !DeleteFails(run[0]) && Diligent(Step(s, run[0]), run[1..])))
  }

  predicate DeleteFails(a: Action) {
    (a.ReturnEarly? || a.PrepareRaises? || a.Release? || a.OuterDelete?) && a.fault
  }

  /** A lock in place is somebody's. */
  ghost predicate LockMeansHolder(s: State) {
    s.lock.Some? ==> Holding(s, s.lock.value.owner)
  }

  lemma StepKeepsLockMeaning(s: State, a: Action)
    requires LockInv(s) && Timely(s) && LockMeansHolder(s)
    requires Enabled(s, a) && !Raises(a) && !DeleteFails(a)
    ensures LockMeansHolder(Step(s, a))
  {
  }

  lemma {:induction false} DiligentRunKeepsLock(s: State, run: seq<Action>)
    requires LockInv(s) && LockMeansHolder(s) && ValidRun(s, run) && Diligent(s, run)
    ensures LockInv(After(s, run)) && LockMeansHolder(After(s, run)) && Timely(After(s, run))
    decreases |run|
  {
    if run != [] {
      StepKeepsLock(s, run[0]);
      StepKeepsLockMeaning(s, run[0]);
      DiligentRunKeepsLock(Step(s, run[0]), run[1..]);
    }
  }

  /** After such a run, a request that tries the lock gets it exactly if nobody holds it. */
  lemma FreeLockIsGranted(now: int, run: seq<Action>, r: nat)
    requires ValidRun(Initial(now), run) && Diligent(Initial(now), run)
    requires Enabled(After(Initial(now), run), TryLock(r))
    ensures var s := After(Initial(now), run);
            Holding(Step(s, TryLock(r)), r) <==> forall h :: !Holding(s, h)
  {
    DiligentRunKeepsLock(Initial(now), run);
    var s := After(Initial(now), run);
    if s.lock.Some? {
      assert Holding(s, s.lock.value.owner);
    }
  }

  /** No lock is ever set to last longer than its time to live from now. */
  ghost predicate LockIsShort(s: State) {
    s.lock.Some? ==> s.lock.value.expiry <= s.now + LOCK_TTL
  }

  lemma {:induction false} RunKeepsLockShort(s: State, run: seq<Action>)
    requires LockIsShort(s) && ValidRun(s, run)
    ensures LockIsShort(After(s, run))
    decreases |run|
  {
    if run != [] {
      RunKeepsLockShort(Step(s, run[0]), run[1..]);
    }
  }

  /** Whatever has gone wrong, a lock left behind is in nobody's way after its time to live. */
  lemma LeftLockRunsOut(now: int, run: seq<Action>, r: nat)
    requires ValidRun(Initial(now), run)
    requires Enabled(After(Initial(now), run), TryLock(r))
    ensures var later := Step(After(Initial(now), run), Tick(LOCK_TTL));
            Enabled(later, TryLock(r)) && Holding(Step(later, TryLock(r)), r)
  {
    RunKeepsLockShort(Initial(now), run);
  }

  /** A holder that marks the day and releases. */
  lemma HolderFinishes(s: State, r: nat) returns (run: seq<Action>)
    requires r in s.requests && s.requests[r].pc.Preparing?
    ensures ValidRun(s, run) && Still(run)
    ensures var end := After(s, run);
            && r in end.requests && end.requests[r].pc.Done? && end.requests[r].markedAt == Some(s.now)
            && end.lock == None && end.now == s.now && end.store == MarkExecuted(s.store, Today(s), s.now)
  {
    var s1 := Step(s, StartBackground(r));
    var s2 := Step(s1, RunAndMark(r, false));
    OneMoreStep(s2, Release(r, false), []);
    var r2 := [Release(r, false)] + [];
    OneMoreStep(s1, RunAndMark(r, false), r2);
    var r1 := [RunAndMark(r, false)] + r2;
    OneMoreStep(s, StartBackground(r), r1);
    run := [StartBackground(r)] + r1;
  }

  /** An unforced request comes in on a day without mark and takes the free or expired lock. */
  lemma AcquireUnforced(s: State, r: nat) returns (run: seq<Action>)
    requires r !in s.requests && (s.lock.None? || s.lock.value.expiry <= s.now) && !Live(s.store, Today(s), s.now)
    ensures ValidRun(s, run) && Still(run)
    ensures var end := After(s, run);
            r in end.requests && end.requests[r].pc.Preparing? && end.now == s.now && end.store == s.store
  {
    var s1 := Step(s, Arrive(r, false));
    var s2 := Step(s1, CheckExecuted(r, false));
    OneMoreStep(s2, TryLock(r), []);
    var r2 := [TryLock(r)] + [];
    OneMoreStep(s1, CheckExecuted(r, false), r2);
    var r1 := [CheckExecuted(r, false)] + r2;
    OneMoreStep(s, Arrive(r, false), r1);
    run := [Arrive(r, false)] + r1;
  }

  /** Where the lock is free and the day not marked, an unforced request goes all the way: it
      marks the day and leaves the lock free. */
  lemma RequestGoesThrough(s: State, r: nat) returns (run: seq<Action>)
    requires r !in s.requests && (s.lock.None? || s.lock.value.expiry <= s.now) && !Live(s.store, Today(s), s.now)
    ensures ValidRun(s, run) && Still(run)
    ensures var end := After(s, run);
            && r in end.requests && end.requests[r].pc.Done? && end.requests[r].markedAt == Some(s.now)
            && end.lock == None && Live(end.store, Today(end), end.now)
  {
    KeyLifetime(s.now);
    var acquire := AcquireUnforced(s, r);
    var finish := HolderFinishes(After(s, acquire), r);
    RunsCompose(s, acquire, finish);
    run := acquire + finish;
  }
}
