/** The scheduler's daily loop, with crashes, restarts, failing handlers and a faulty key store.

    The first half is the loop's memory and what each piece of the loop does to it. The
    second half runs the loop as a state machine: one live process at a time and a clock
    that never goes back, but otherwise any order of steps.
  */
module TradingScheduling {
  import opened Common
  import opened SchedulerIdempotency

  datatype ScheduleEvent = ScheduleEvent(kind: string, time: int)

  /** What the loop remembers: the date it works on and the events done on it. */
  datatype Memory = Memory(currentDate: Option<int>, executed: seq<string>)

  const BLANK := Memory(None, [])

  /** At start: adopt the events loaded for `today`, if there are any. */
  function Restored(m: Memory, loaded: set<string>, order: seq<string>, today: int): Memory {
    if loaded == {} then m else Memory(Some(today), order)
  }

  /** On a trading day: a new date begins with nothing executed. */
  function DayBegun(m: Memory, today: int): Memory {
    if m.currentDate != Some(today) then Memory(Some(today), []) else m
  }

  function Skipped(m: Memory, kind: string): Memory {
    if kind in m.executed then m else m.(executed := m.executed + [kind])
  }

  function Completed(m: Memory, kind: string): Memory {
    m.(executed := m.executed + [kind])
  }

  function FirstUnexecuted(schedule: seq<ScheduleEvent>, executed: seq<string>): Option<ScheduleEvent> {
    if schedule == [] then None
    else if schedule[0].kind in executed then FirstUnexecuted(schedule[1..], executed)
    else Some(schedule[0])
  }

  /** The event found is in the schedule, is not executed, and everything before it is. */
  lemma {:induction false} FirstUnexecutedIsFirst(schedule: seq<ScheduleEvent>, executed: seq<string>)
    ensures var r := FirstUnexecuted(schedule, executed);
            if r.None? then forall e :: e in schedule ==> e.kind in executed
            else exists i :: 0 <= i < |schedule| && r.value == schedule[i] && schedule[i].kind !in executed
                             && forall j :: 0 <= j < i ==> schedule[j].kind in executed
  {
    if schedule != [] && schedule[0].kind in executed {
      FirstUnexecutedIsFirst(schedule[1..], executed);
      var r := FirstUnexecuted(schedule, executed);
      if r.Some? {
        var i :| 0 <= i < |schedule[1..]| && r.value == schedule[1..][i] && schedule[1..][i].kind !in executed
                 && forall j :: 0 <= j < i ==> schedule[1..][j].kind in executed;
        forall j | 0 <= j < i + 1
          ensures schedule[j].kind in executed
        {
          assert j == 0 || schedule[j] == schedule[1..][j - 1];
        }
        assert r.value == schedule[i + 1];
      }
    }
  }

  lemma {:induction false} ChosenIsUnexecuted(schedule: seq<ScheduleEvent>, executed: seq<string>)
    ensures var r := FirstUnexecuted(schedule, executed); r.Some? ==> r.value.kind !in executed
  {
    if schedule != [] && schedule[0].kind in executed {
      ChosenIsUnexecuted(schedule[1..], executed);
    }
  }

  class TradingScheduler {
    const schedule: seq<ScheduleEvent>
    var currentDate: Option<int>
    var eventsExecutedToday: seq<string>
    var totalTradingDays: int

    constructor (schedule: seq<ScheduleEvent>)
      ensures this.schedule == schedule && Mem() == BLANK && totalTradingDays == 0
    {
      this.schedule := schedule;
      currentDate := None;
      eventsExecutedToday := [];
      totalTradingDays := 0;
    }

    function Mem(): Memory
      reads this
    {
      Memory(currentDate, eventsExecutedToday)
    }

    method Restore(loaded: set<string>, order: seq<string>, today: int)
      modifies this
      ensures Mem() == Restored(old(Mem()), loaded, order, today)
      ensures totalTradingDays == old(totalTradingDays)
    {
      if loaded != {} {
        currentDate := Some(today);
        eventsExecutedToday := order;
      }
    }

    method BeginDay(today: int)
      modifies this
      ensures Mem() == DayBegun(old(Mem()), today)
      ensures totalTradingDays == old(totalTradingDays) + (if old(currentDate) == Some(today) then 0 else 1)
    {
      if currentDate != Some(today) {
        currentDate := Some(today);
        eventsExecutedToday := [];
        totalTradingDays := totalTradingDays + 1;
      }
    }

    /** Both branches for unexecuted events return, so the time of day decides nothing. */
    method FindNextEvent(timeOfDay: int) returns (r: Option<ScheduleEvent>)
      ensures r == FirstUnexecuted(schedule, eventsExecutedToday)
    {
      var i := 0;
      while i < |schedule|
        invariant 0 <= i <= |schedule|
        invariant FirstUnexecuted(schedule, eventsExecutedToday) == FirstUnexecuted(schedule[i..], eventsExecutedToday)
      {
        var event := schedule[i];
        assert schedule[i..][0] == event && schedule[i..][1..] == schedule[i + 1..];
        if event.kind !in eventsExecutedToday {
          if event.time >= timeOfDay {
            return Some(event);
          }
          return Some(event);
        }
        i := i + 1;
      }
      return None;
    }

    method RecordSkipped(kind: string)
      modifies this
      ensures Mem() == Skipped(old(Mem()), kind)
      ensures totalTradingDays == old(totalTradingDays)
    {
      if kind !in eventsExecutedToday {
        eventsExecutedToday := eventsExecutedToday + [kind];
      }
    }

    method RecordCompleted(kind: string)
      modifies this
      ensures Mem() == Completed(old(Mem()), kind)
      ensures totalTradingDays == old(totalTradingDays)
    {
      eventsExecutedToday := eventsExecutedToday + [kind];
    }
  }

  // ---- The loop as a state machine ----

  datatype Config = Config(schedule: seq<ScheduleEvent>, trading: int -> bool)

  /** Where the loop is: at its top; with an event chosen and perhaps waiting for its time;
      about to ask the store; in the handler; and between the handler's return and the
      write of the key. */
  datatype Pc =
    | Top
    | Chosen(event: ScheduleEvent, at: int)
    | Checking(event: ScheduleEvent, keyDate: int)
    | Running(event: ScheduleEvent, keyDate: int)
    | Marking(event: ScheduleEvent, keyDate: int)

  datatype Process = Down | Up(mem: Memory, pc: Pc)

  /** A handler that returned: for which event, on which of the loop's dates, in which process. */
  datatype Completion = Completion(kind: string, date: int, life: nat)

  datatype State = State(now: int, store: Store, process: Process, lives: nat, log: seq<Completion>)

  /** `fault` means that the store did not answer this request, or when booting that it stopped
      answering part way, which leaves what was loaded until then. */
  datatype Action =
    | Tick(elapsed: nat)
    | Crash
    | Boot(fault: bool, order: seq<string>)
    | Iterate(paused: bool)
    | Wake
    | Check(fault: bool)
    | HandlerFails
    | HandlerReturns
    | Mark(fault: bool)

  function Initial(now: int): State {
    State(now, map[], Down, 0, [])
  }

  /** A running handler always has a date to work on (`PcInv`). */
  predicate Enabled(c: Config, s: State, a: Action) {
    match a
    case Tick(_) => true
    case Boot(fault, order) =>
      s.process.Down?
      && var loaded := LoadExecuted(s.store, DateOf(s.now), s.now);
         if fault then (set kind | kind in order) <= loaded else (set kind | kind in order) == loaded
    case Crash => s.process.Up?
    case Iterate(_) => s.process.Up? && s.process.pc.Top?
    case Wake => s.process.Up? && s.process.pc.Chosen?
    case Check(_) => s.process.Up? && s.process.pc.Checking?
    case HandlerFails => s.process.Up? && s.process.pc.Running?
    case HandlerReturns => s.process.Up? && s.process.pc.Running? && s.process.mem.currentDate.Some?
    case Mark(_) => s.process.Up? && s.process.pc.Marking?
  }

  function Step(c: Config, s: State, a: Action): State
    requires Enabled(c, s, a)
  {
    match a
    case Tick(elapsed) => s.(now := s.now + elapsed)
    case Crash => s.(process := Down)
    case Boot(_, order) =>
      s.(process := Up(Restored(BLANK, (set kind | kind in order), order, DateOf(s.now)), Top), lives := s.lives + 1)
    case Iterate(paused) =>
      var today := DateOf(s.now);
      if !c.trading(today) then s
      else
        var mem := DayBegun(s.process.mem, today);
        var next := FirstUnexecuted(c.schedule, mem.executed);
        if paused || next.None? then s.(process := Up(mem, Top))
        else s.(process := Up(mem, Chosen(next.value, today * DAY + next.value.time)))
    case Wake =>
      var p := s.process;
      if s.now < p.pc.at then s.(process := p.(pc := Top))
      else s.(process := p.(pc := Checking(p.pc.event, DateOf(s.now))))
    case Check(fault) =>
      var p := s.process;
      var kind := p.pc.event.kind;
      if !fault && Live(s.store, Key(kind, p.pc.keyDate), s.now) then
        s.(process := Up(Skipped(p.mem, kind), Top))
      else
        s.(process := p.(pc := Running(p.pc.event, p.pc.keyDate)))
    case HandlerFails => s.(process := s.process.(pc := Top))
    case HandlerReturns =>
      var p := s.process;
      s.(process := Up(Completed(p.mem, p.pc.event.kind), Marking(p.pc.event, p.pc.keyDate)),
      log := s.log + [Completion(p.pc.event.kind, p.mem.currentDate.value, s.lives)])
    case Mark(fault) =>
      var p := s.process;
      s.(process := p.(pc := Top),
      store := if fault then s.store else MarkExecuted(s.store, Key(p.pc.event.kind, p.pc.keyDate), s.now))
  }

  predicate ValidRun(c: Config, s: State, run: seq<Action>)
    decreases |run|
  {
    run == [] || (Enabled(c, s, run[0]) && ValidRun(c, Step(c, s, run[0]), run[1..]))
  }

  function After(c: Config, s: State, run: seq<Action>): State
    requires ValidRun(c, s, run)
    decreases |run|
  {
    if run == [] then s else After(c, Step(c, s, run[0]), run[1..])
  }

  // ---- What every step keeps ----

  /** The event in hand is the first unexecuted one of the loop's date, and past waiting its
      time has come. The memory covers all that this process completed on its date. */
  ghost predicate Inv(c: Config, s: State) {
    && (forall i, j :: 0 <= i < j < |s.log| && s.log[i].life == s.log[j].life && s.log[i].date == s.log[j].date
                       ==> s.log[i].kind != s.log[j].kind)
    && (forall i :: 0 <= i < |s.log| ==> s.log[i].life <= s.lives && s.log[i].date <= DateOf(s.now))
    && (s.process.Up? ==> MemoryCovers(s) && PcInv(c, s))
  }

  ghost predicate MemoryCovers(s: State)
    requires s.process.Up?
  {
    var mem := s.process.mem;
    && (mem.currentDate.Some? ==> mem.currentDate.value <= DateOf(s.now))
    && (forall i :: 0 <= i < |s.log| && s.log[i].life == s.lives ==>
          && mem.currentDate.Some?
          && s.log[i].date <= mem.currentDate.value
          && (s.log[i].date == mem.currentDate.value ==> s.log[i].kind in mem.executed))
  }

  ghost predicate PcInv(c: Config, s: State)
    requires s.process.Up?
  {
    var mem, pc := s.process.mem, s.process.pc;
    && (!pc.Top? ==> mem.currentDate.Some? && c.trading(mem.currentDate.value))
    && (pc.Chosen? ==> pc.at == mem.currentDate.value * DAY + pc.event.time)
    && (pc.Chosen? || pc.Checking? || pc.Running? ==> FirstUnexecuted(c.schedule, mem.executed) == Some(pc.event))
    && (pc.Checking? || pc.Running? ==>
          mem.currentDate.value * DAY + pc.event.time <= s.now && mem.currentDate.value <= pc.keyDate <= DateOf(s.now))
    && (pc.Marking? ==> pc.event.kind in mem.executed && mem.currentDate.value <= pc.keyDate <= DateOf(s.now))
  }

  lemma DatesMonotone(a: int, b: int)
    requires a <= b
    ensures DateOf(a) <= DateOf(b)
  {
  }

  lemma StepKeepsInv(c: Config, s: State, a: Action)
    requires Inv(c, s) && Enabled(c, s, a)
    ensures Inv(c, Step(c, s, a))
  {
    if a.Tick? {
      DatesMonotone(s.now, s.now + a.elapsed);
    } else if a.HandlerReturns? {
      CompletionKeepsInv(c, s, a);
    }
  }

  lemma CompletionKeepsInv(c: Config, s: State, a: Action)
    requires Inv(c, s) && Enabled(c, s, a) && a.HandlerReturns?
    ensures Inv(c, Step(c, s, a))
  {
    var s' := Step(c, s, a);
    ChosenIsUnexecuted(c.schedule, s.process.mem.executed);
    var n := |s.log|;
    assert forall i :: 0 <= i < n ==> s'.log[i] == s.log[i];
    assert forall i :: 0 <= i < n && s.log[i].life == s.lives && s.log[i].date == s'.log[n].date ==> s.log[i].kind != s'.log[n].kind;
    assert MemoryCovers(s');
  }

  lemma {:induction false} RunKeepsInv(c: Config, s: State, run: seq<Action>)
    requires Inv(c, s) && ValidRun(c, s, run)
    ensures Inv(c, After(c, s, run))
    decreases |run|
  {
    if run != [] {
      StepKeepsInv(c, s, run[0]);
      RunKeepsInv(c, Step(c, s, run[0]), run[1..]);
    }
  }

  // ---- Order and time of starts ----

  /** Whenever a handler runs, the loop's date is a trading day, its event is the first
      unexecuted one in schedule order on that date, and the scheduled time has come. */
  lemma HandlersRunInOrderAndNotEarly(c: Config, now: int, run: seq<Action>)
    requires ValidRun(c, Initial(now), run)
    requires var s := After(c, Initial(now), run); s.process.Up? && s.process.pc.Running?
    ensures var s := After(c, Initial(now), run);
            var mem, event := s.process.mem, s.process.pc.event;
            && mem.currentDate.Some? && c.trading(mem.currentDate.value)
            && mem.currentDate.value * DAY + event.time <= s.now
            && exists i :: 0 <= i < |c.schedule| && c.schedule[i] == event && event.kind !in mem.executed
                           && forall j :: 0 <= j < i ==> c.schedule[j].kind in mem.executed
  {
    RunKeepsInv(c, Initial(now), run);
    var s := After(c, Initial(now), run);
    FirstUnexecutedIsFirst(c.schedule, s.process.mem.executed);
  }

  // ---- At most once per date ----

  /** Whatever the store and the handlers do, one process completes an event at most once per date. */
  lemma OncePerDateAndProcess(c: Config, now: int, run: seq<Action>, i: nat, j: nat)
    requires ValidRun(c, Initial(now), run)
    requires i < j < |After(c, Initial(now), run).log|
    ensures var log := After(c, Initial(now), run).log;
            !(log[i].kind == log[j].kind && log[i].date == log[j].date && log[i].life == log[j].life)
  {
    RunKeepsInv(c, Initial(now), run);
  }

  /** The run obeys a restriction at each of its steps. */
  predicate RunObeys(c: Config, s: State, run: seq<Action>, ok: (State, Action) -> bool)
    requires ValidRun(c, s, run)
    decreases |run|
  {
    run == [] || (ok(s, run[0]) && RunObeys(c, Step(c, s, run[0]), run[1..], ok))
  }

  /** Keys are written, and no crash falls between a handler's return and the write. */
  predicate MarksKept(s: State, a: Action) {
    && (a.Mark? ==> !a.fault)
    && (a.Crash? ==> s.process.Up? ==> !s.process.pc.Marking?)
  }

  /** Restarts read the keys, and not in the last second of a day. */
  predicate LoadsKept(s: State, a: Action) {
    a.Boot? ==> !a.fault && s.now <= NextMidnight(s.now) - SECOND
  }

  /** The final check is answered, on the loop's own date, and not in its last second. */
  predicate ChecksKept(s: State, a: Action) {
    a.Check? && s.process.Up? && s.process.pc.Checking? && s.process.mem.currentDate.Some? ==>
      && !a.fault
      && s.process.pc.keyDate == DateOf(s.now) == s.process.mem.currentDate.value
      && s.now <= NextMidnight(s.now) - SECOND
  }

  predicate Guarded(s: State, a: Action) {
    MarksKept(s, a) && LoadsKept(s, a)
  }

  predicate Checked(s: State, a: Action) {
    MarksKept(s, a) && ChecksKept(s, a)
  }

  /** Each event of the log has its key until the last second of the day, except while the
      key is about to be written. */
  ghost predicate KeysCover(s: State) {
    forall i, t :: 0 <= i < |s.log| && s.now <= t <= NextMidnight(t) - SECOND && s.log[i].date == DateOf(t) ==>
      HasKey(s, s.log[i], t)
  }

  ghost predicate HasKey(s: State, done: Completion, t: int) {
    || Live(s.store, Key(done.kind, done.date), t)
    || (s.process.Up? && s.process.pc.Marking? && s.process.pc.event.kind == done.kind
        && s.process.mem.currentDate == Some(done.date) && s.lives == done.life)
  }

  ghost predicate UniqueSoFar(s: State) {
    forall i, j :: 0 <= i < j < |s.log| && s.log[i].date == s.log[j].date ==> s.log[i].kind != s.log[j].kind
  }

  lemma StepKeepsKeys(c: Config, s: State, a: Action)
    requires Inv(c, s) && KeysCover(s) && Enabled(c, s, a) && MarksKept(s, a)
    ensures KeysCover(Step(c, s, a))
  {
    var s' := Step(c, s, a);
    forall i, t | 0 <= i < |s'.log| && s'.now <= t <= NextMidnight(t) - SECOND && s'.log[i].date == DateOf(t)
      ensures HasKey(s', s'.log[i], t)
    {
      if i < |s.log| {
        assert HasKey(s, s.log[i], t);
      }
      DatesMonotone(s'.now, t);
      if a.Mark? {
        LiveUntilLastSecondOfDate(s.now, t);
      }
    }
  }

  /** The key written at `written` for the date of a later instant `t`. */
  lemma LiveUntilLastSecondOfDate(written: int, t: int)
    requires written <= t <= NextMidnight(t) - SECOND
    ensures DateOf(written) == DateOf(t) ==> t < Expiry(written)
  {
    if DateOf(written) == DateOf(t) {
      LiveUntilLastSecond(written, t);
    }
  }

  // First defence: the keys read at every restart.

  /** The memory covers all that any process completed on the loop's date. */
  ghost predicate MemoryCoversAll(s: State) {
    s.process.Up? ==>
      forall i :: 0 <= i < |s.log| ==>
        && (s.process.mem.currentDate.None? ==> s.log[i].date < DateOf(s.now))
        && (s.process.mem.currentDate.Some? && s.log[i].date >= s.process.mem.currentDate.value ==>
              s.log[i].date == s.process.mem.currentDate.value && s.log[i].kind in s.process.mem.executed)
  }

  lemma StepKeepsMemory(c: Config, s: State, a: Action)
    requires Inv(c, s) && MemoryCoversAll(s) && UniqueSoFar(s) && Enabled(c, s, a) && !a.Boot?
    ensures MemoryCoversAll(Step(c, s, a)) && UniqueSoFar(Step(c, s, a))
  {
    if a.Tick? {
      DatesMonotone(s.now, s.now + a.elapsed);
    } else if a.HandlerReturns? {
      ChosenIsUnexecuted(c.schedule, s.process.mem.executed);
    } else {
      assert Step(c, s, a).log == s.log;
    }
  }

  /** All events completed on the current date still have their keys. */
  ghost predicate KeysLive(s: State) {
    forall i :: 0 <= i < |s.log| && s.log[i].date == DateOf(s.now) ==> Live(s.store, Key(s.log[i].kind, s.log[i].date), s.now)
  }

  lemma BootRestoresMemory(c: Config, s: State, a: Action)
    requires Inv(c, s) && KeysLive(s) && Enabled(c, s, a) && a.Boot? && !a.fault
    ensures MemoryCoversAll(Step(c, s, a))
  {
    forall i | 0 <= i < |s.log| && s.log[i].date == DateOf(s.now)
      ensures s.log[i].kind in Step(c, s, a).process.mem.executed
    {
      LoadFindsLiveKeys(s.store, DateOf(s.now), s.now, s.log[i].kind);
      assert s.log[i].kind in (set kind | kind in a.order);
    }
  }

  lemma StepKeepsUniqueByLoads(c: Config, s: State, a: Action)
    requires Inv(c, s) && KeysCover(s) && MemoryCoversAll(s) && UniqueSoFar(s)
    requires Enabled(c, s, a) && Guarded(s, a)
    ensures MemoryCoversAll(Step(c, s, a)) && UniqueSoFar(Step(c, s, a))
  {
    if a.Boot? {
      forall i | 0 <= i < |s.log| && s.log[i].date == DateOf(s.now)
        ensures Live(s.store, Key(s.log[i].kind, s.log[i].date), s.now)
      {
        assert HasKey(s, s.log[i], s.now);
      }
      BootRestoresMemory(c, s, a);
    } else {
      StepKeepsMemory(c, s, a);
    }
  }

  lemma {:induction false} LoadsDefend(c: Config, s: State, run: seq<Action>)
    requires Inv(c, s) && KeysCover(s) && MemoryCoversAll(s) && UniqueSoFar(s)
    requires ValidRun(c, s, run) && RunObeys(c, s, run, Guarded)
    ensures UniqueSoFar(After(c, s, run))
    decreases |run|
  {
    if run != [] {
      StepKeepsInv(c, s, run[0]);
      StepKeepsKeys(c, s, run[0]);
      StepKeepsUniqueByLoads(c, s, run[0]);
      LoadsDefend(c, Step(c, s, run[0]), run[1..]);
    }
  }

  /** With keys written and read at restarts, an event completes at most once per date over
      all processes, even if every final check fails. */
  lemma OncePerDateByLoads(c: Config, now: int, run: seq<Action>)
    requires ValidRun(c, Initial(now), run) && RunObeys(c, Initial(now), run, Guarded)
    ensures UniqueSoFar(After(c, Initial(now), run))
  {
    LoadsDefend(c, Initial(now), run);
  }

  // Second defence: the final check before each handler.

  /** A handler runs only if no process has completed its event on that date. */
  ghost predicate RunningIsNew(s: State) {
    s.process.Up? && s.process.pc.Running? ==>
      && s.process.mem.currentDate.Some?
      && forall i :: 0 <= i < |s.log| && s.log[i].kind == s.process.pc.event.kind ==> s.log[i].date != s.process.mem.currentDate.value
  }

  lemma StepKeepsUniqueByChecks(c: Config, s: State, a: Action)
    requires Inv(c, s) && KeysCover(s) && RunningIsNew(s) && UniqueSoFar(s)
    requires Enabled(c, s, a) && Checked(s, a)
    ensures RunningIsNew(Step(c, s, a)) && UniqueSoFar(Step(c, s, a))
  {
    if a.Check? {
      forall i | 0 <= i < |s.log| && s.log[i].kind == s.process.pc.event.kind && s.log[i].date == s.process.mem.currentDate.value
        ensures Live(s.store, Key(s.log[i].kind, s.log[i].date), s.now)
      {
        assert HasKey(s, s.log[i], s.now);
      }
    }
  }

  lemma {:induction false} ChecksDefend(c: Config, s: State, run: seq<Action>)
    requires Inv(c, s) && KeysCover(s) && RunningIsNew(s) && UniqueSoFar(s)
    requires ValidRun(c, s, run) && RunObeys(c, s, run, Checked)
    ensures UniqueSoFar(After(c, s, run))
    decreases |run|
  {
    if run != [] {
      StepKeepsInv(c, s, run[0]);
      StepKeepsKeys(c, s, run[0]);
      StepKeepsUniqueByChecks(c, s, run[0]);
      ChecksDefend(c, Step(c, s, run[0]), run[1..]);
    }
  }

  /** With keys written and final checks answered, an event completes at most once per date
      over all processes, even if every restart fails to read the keys. */
  lemma OncePerDateByChecks(c: Config, now: int, run: seq<Action>)
    requires ValidRun(c, Initial(now), run) && RunObeys(c, Initial(now), run, Checked)
    ensures UniqueSoFar(After(c, Initial(now), run))
  {
    ChecksDefend(c, Initial(now), run);
  }

  // ---- What happens without the guards ----

  lemma OneMoreStep(c: Config, s: State, a: Action, rest: seq<Action>)
    requires Enabled(c, s, a) && ValidRun(c, Step(c, s, a), rest)
    ensures ValidRun(c, s, [a] + rest) && After(c, s, [a] + rest) == After(c, Step(c, s, a), rest)
    ensures MarksKept(s, a) && RunObeys(c, Step(c, s, a), rest, MarksKept) ==> RunObeys(c, s, [a] + rest, MarksKept)
  {
    assert ([a] + rest)[1..] == rest;
  }

  /** A process that restarts in the last second of a day, when the truncated key is already
      gone, completes an event a second time, with a store that never failed. */
  lemma RestartInLastSecondRepeats(kind: string) returns (c: Config, run: seq<Action>)
    ensures ValidRun(c, Initial(0), run) && RunObeys(c, Initial(0), run, MarksKept)
    ensures After(c, Initial(0), run).log == [Completion(kind, 0, 1), Completion(kind, 0, 2)]
  {
    var event := ScheduleEvent(kind, 0);
    c := Config([event], _ => true);
    var late := DAY - 100 * SECOND - 500_000;
    var done := Memory(Some(0), [kind]);
    var first := [Completion(kind, 0, 1)];
    var store := map[Key(kind, 0) := DAY - 500_000];
    var end := DAY - 250_000;

    var s8 := State(end, store, Down, 1, first);
    var tail := SecondLife(c, event, s8);
    run := [Mark(false), Tick(100 * SECOND + 250_000), Crash] + tail;
    var s5 := State(late, map[], Up(done, Marking(event, 0)), 1, first);
    var s6 := Step(c, s5, Mark(false));
    assert s6 == State(late, store, Up(done, Top), 1, first);
    var s7 := Step(c, s6, Tick(100 * SECOND + 250_000));
    assert Step(c, s7, Crash) == s8;
    OneMoreStep(c, s7, Crash, tail);
    OneMoreStep(c, s6, Tick(100 * SECOND + 250_000), [Crash] + tail);
    assert [Tick(100 * SECOND + 250_000)] + ([Crash] + tail) == run[1..];
    OneMoreStep(c, s5, Mark(false), run[1..]);
    assert [Mark(false)] + run[1..] == run;
    run := FirstLife(c, event, late, run);
  }

  /** From a stopped process at the end of the day to its second completion. */
  lemma SecondLife(c: Config, event: ScheduleEvent, s: State) returns (tail: seq<Action>)
    requires c.schedule == [event] && event.time == 0 && c.trading(0)
    requires 0 <= s.now < DAY && s.process.Down? && (forall key :: key in s.store ==> s.store[key] <= s.now)
    ensures ValidRun(c, s, tail) && RunObeys(c, s, tail, MarksKept)
    ensures After(c, s, tail).log == s.log + [Completion(event.kind, 0, s.lives + 1)]
  {
    assert LoadExecuted(s.store, 0, s.now) == {};
    var s1 := Step(c, s, Boot(false, []));
    assert s1.process == Up(BLANK, Top);
    var s2 := Step(c, s1, Iterate(false));
    assert s2.process == Up(Memory(Some(0), []), Chosen(event, 0));
    var s3 := Step(c, s2, Wake);
    var s4 := Step(c, s3, Check(false));
    assert s4.process.pc == Running(event, 0);
    OneMoreStep(c, s4, HandlerReturns, []);
    OneMoreStep(c, s3, Check(false), [HandlerReturns]);
    OneMoreStep(c, s2, Wake, [Check(false), HandlerReturns]);
    assert [Check(false)] + [HandlerReturns] == [Check(false), HandlerReturns];
    OneMoreStep(c, s1, Iterate(false), [Wake] + [Check(false), HandlerReturns]);
    tail := [Boot(false, [])] + ([Iterate(false)] + ([Wake] + [Check(false), HandlerReturns]));
    OneMoreStep(c, s, Boot(false, []), [Iterate(false)] + ([Wake] + [Check(false), HandlerReturns]));
  }

  /** From the beginning of the day to the first completion at `late`, and on with `rest`. */
  lemma FirstLife(c: Config, event: ScheduleEvent, late: nat, rest: seq<Action>) returns (run: seq<Action>)
    requires c.schedule == [event] && event.time == 0 && c.trading(0) && late < DAY
    requires var s := State(late, map[], Up(Memory(Some(0), [event.kind]), Marking(event, 0)), 1, [Completion(event.kind, 0, 1)]);
             ValidRun(c, s, rest) && RunObeys(c, s, rest, MarksKept)
    ensures ValidRun(c, Initial(0), run) && RunObeys(c, Initial(0), run, MarksKept)
    ensures After(c, Initial(0), run)
         == After(c, State(late, map[], Up(Memory(Some(0), [event.kind]), Marking(event, 0)), 1, [Completion(event.kind, 0, 1)]), rest)
  {
    var s := Initial(0);
    assert LoadExecuted(s.store, 0, s.now) == {};
    var s1 := Step(c, s, Boot(false, []));
    assert s1.process == Up(BLANK, Top);
    var s2 := Step(c, s1, Iterate(false));
    assert s2.process == Up(Memory(Some(0), []), Chosen(event, 0));
    var s3 := Step(c, s2, Wake);
    var s4 := Step(c, s3, Check(false));
    var s5 := Step(c, s4, Tick(late));
    assert s5 == State(late, map[], Up(Memory(Some(0), []), Running(event, 0)), 1, []);
    var s6 := Step(c, s5, HandlerReturns);
    assert s6.log == [Completion(event.kind, 0, 1)] && s6.process.mem.executed == [event.kind];
    assert s6
        == State(late, map[], Up(Memory(Some(0), [event.kind]), Marking(event, 0)), 1, [Completion(event.kind, 0, 1)]);
    var r5 := [HandlerReturns] + rest;
    OneMoreStep(c, s5, HandlerReturns, rest);
    var r4 := [Tick(late)] + r5;
    OneMoreStep(c, s4, Tick(late), r5);
    var r3 := [Check(false)] + r4;
    OneMoreStep(c, s3, Check(false), r4);
    var r2 := [Wake] + r3;
    OneMoreStep(c, s2, Wake, r3);
    var r1 := [Iterate(false)] + r2;
    OneMoreStep(c, s1, Iterate(false), r2);
    run := [Boot(false, [])] + r1;
    OneMoreStep(c, s, Boot(false, []), r1);
  }

  // ---- Exactly when a restart repeats an event ----

  predicate Faulty(a: Action) {
    (a.Boot? && a.fault) || (a.Check? && a.fault) || (a.Mark? && a.fault)
  }

  /** The clock stands still, nothing crashes, and the store always answers. */
  predicate Quiet(run: seq<Action>) {
    forall a :: a in run ==> !a.Tick? && !a.Crash? && !Faulty(a)
  }

  ghost predicate NeverRepeats(c: Config, s: State) {
    forall run :: ValidRun(c, s, run) && Quiet(run) ==> UniqueSoFar(After(c, s, run))
  }

  /** The k-th event of the schedule is due, with all before it. */
  predicate Due(c: Config, now: int, k: nat)
    requires k < |c.schedule|
  {
    forall j :: 0 <= j <= k ==> DateOf(now) * DAY + c.schedule[j].time <= now
  }

  ghost predicate CompletedAreDue(c: Config, s: State) {
    forall i :: 0 <= i < |s.log| && s.log[i].date == DateOf(s.now) ==> DueKind(c, s.now, s.log[i].kind)
  }

  ghost predicate DueKind(c: Config, now: int, kind: string) {
    exists k :: 0 <= k < |c.schedule| && c.schedule[k].kind == kind && Due(c, now, k)
  }

  lemma {:induction false} LiveProcessNeverRepeats(c: Config, s: State, run: seq<Action>)
    requires s.process.Up? && Inv(c, s) && MemoryCoversAll(s) && UniqueSoFar(s)
    requires ValidRun(c, s, run) && Quiet(run)
    ensures UniqueSoFar(After(c, s, run))
    decreases |run|
  {
    if run != [] {
      assert run[0] in run && forall a :: a in run[1..] ==> a in run;
      StepKeepsInv(c, s, run[0]);
      StepKeepsMemory(c, s, run[0]);
      LiveProcessNeverRepeats(c, Step(c, s, run[0]), run[1..]);
    }
  }

  lemma LiveKeysNeverRepeat(c: Config, s: State, run: seq<Action>)
    requires s.process.Down? && Inv(c, s) && KeysLive(s) && UniqueSoFar(s)
    requires ValidRun(c, s, run) && Quiet(run)
    ensures UniqueSoFar(After(c, s, run))
  {
    if run != [] {
      assert run[0] in run && forall a :: a in run[1..] ==> a in run;
      StepKeepsInv(c, s, run[0]);
      BootRestoresMemory(c, s, run[0]);
      LiveProcessNeverRepeats(c, Step(c, s, run[0]), run[1..]);
    }
  }

  /** How many of the events up to the k-th are not executed. */
  function Pending(schedule: seq<ScheduleEvent>, executed: seq<string>, k: nat): nat
    requires k <= |schedule|
  {
    if k == 0 then 0
    else Pending(schedule, executed, k - 1) + (if schedule[k - 1].kind in executed then 0 else 1)
  }

  lemma {:induction false} PendingDecreases(schedule: seq<ScheduleEvent>, before: seq<string>, after: seq<string>, k: nat, j: nat)
    requires k <= |schedule| && forall kind :: kind in before ==> kind in after
    ensures Pending(schedule, after, k) <= Pending(schedule, before, k)
    ensures j < k && schedule[j].kind !in before && schedule[j].kind in after ==>
              Pending(schedule, after, k) < Pending(schedule, before, k)
  {
    if k > 0 {
      PendingDecreases(schedule, before, after, k - 1, j);
    }
  }

  /** The loop from its top to the check of the next event, which is due. */
  lemma ToCheck(c: Config, s: State, event: ScheduleEvent) returns (run: seq<Action>)
    requires s.process.Up? && s.process.pc.Top? && c.trading(DateOf(s.now))
    requires FirstUnexecuted(c.schedule, DayBegun(s.process.mem, DateOf(s.now)).executed) == Some(event)
    requires DateOf(s.now) * DAY + event.time <= s.now
    ensures ValidRun(c, s, run) && Quiet(run)
    ensures After(c, s, run)
         == s.(process := Up(DayBegun(s.process.mem, DateOf(s.now)), Checking(event, DateOf(s.now))))
  {
    var s1 := Step(c, s, Iterate(false));
    OneMoreStep(c, s1, Wake, []);
    OneMoreStep(c, s, Iterate(false), [Wake]);
    run := [Iterate(false)] + [Wake];
    assert [Wake] == [Wake] + [];
  }

  lemma {:induction false} RunsCompose(c: Config, s: State, run1: seq<Action>, run2: seq<Action>)
    requires ValidRun(c, s, run1) && ValidRun(c, After(c, s, run1), run2)
    ensures ValidRun(c, s, run1 + run2) && After(c, s, run1 + run2) == After(c, After(c, s, run1), run2)
    decreases |run1|
  {
    if run1 == [] {
      assert run1 + run2 == run2;
    } else {
      RunsCompose(c, Step(c, s, run1[0]), run1[1..], run2);
      assert (run1 + run2)[1..] == run1[1..] + run2;
    }
  }

  /** The loop is at its top with this event next, and it is due. */
  ghost predicate Ready(c: Config, s: State, event: ScheduleEvent) {
    && s.process.Up? && s.process.pc.Top? && c.trading(DateOf(s.now))
    && FirstUnexecuted(c.schedule, DayBegun(s.process.mem, DateOf(s.now)).executed) == Some(event)
    && DateOf(s.now) * DAY + event.time <= s.now
  }

  /** With its key found, an event is skipped; */
  lemma ToSkip(c: Config, s: State, event: ScheduleEvent) returns (run: seq<Action>)
    requires Ready(c, s, event) && Live(s.store, Key(event.kind, DateOf(s.now)), s.now)
    ensures ValidRun(c, s, run) && Quiet(run)
    ensures After(c, s, run) == s.(process := Up(Skipped(DayBegun(s.process.mem, DateOf(s.now)), event.kind), Top))
  {
    var start := ToCheck(c, s, event);
    var s1 := After(c, s, start);
    OneMoreStep(c, s1, Check(false), []);
    assert [Check(false)] + [] == [Check(false)];
    RunsCompose(c, s, start, [Check(false)]);
    run := start + [Check(false)];
  }

  /** without, it completes; */
  lemma ToCompletion(c: Config, s: State, event: ScheduleEvent) returns (run: seq<Action>)
    requires Ready(c, s, event) && !Live(s.store, Key(event.kind, DateOf(s.now)), s.now)
    ensures ValidRun(c, s, run) && Quiet(run)
    ensures After(c, s, run)
         == s.(process := Up(Completed(DayBegun(s.process.mem, DateOf(s.now)), event.kind), Marking(event, DateOf(s.now))),
               log := s.log + [Completion(event.kind, DateOf(s.now), s.lives)])
  {
    var start := ToCheck(c, s, event);
    var s1 := After(c, s, start);
    var s2 := Step(c, s1, Check(false));
    OneMoreStep(c, s2, HandlerReturns, []);
    assert [HandlerReturns] + [] == [HandlerReturns];
    OneMoreStep(c, s1, Check(false), [HandlerReturns]);
    RunsCompose(c, s, start, [Check(false)] + [HandlerReturns]);
    run := start + ([Check(false)] + [HandlerReturns]);
  }

  /** and its key is written. */
  lemma ToMark(c: Config, s: State, event: ScheduleEvent) returns (run: seq<Action>)
    requires Ready(c, s, event) && !Live(s.store, Key(event.kind, DateOf(s.now)), s.now)
    ensures ValidRun(c, s, run) && Quiet(run)
    ensures After(c, s, run)
         == s.(process := Up(Completed(DayBegun(s.process.mem, DateOf(s.now)), event.kind), Top),
               store := MarkExecuted(s.store, Key(event.kind, DateOf(s.now)), s.now),
               log := s.log + [Completion(event.kind, DateOf(s.now), s.lives)])
  {
    var start := ToCompletion(c, s, event);
    var s1 := After(c, s, start);
    OneMoreStep(c, s1, Mark(false), []);
    assert [Mark(false)] + [] == [Mark(false)];
    RunsCompose(c, s, start, [Mark(false)]);
    run := start + [Mark(false)];
  }

  /** The k-th event was completed today, but neither the memory nor a key knows of it. */
  ghost predicate Forgotten(c: Config, s: State, k: nat, i: nat) {
    && s.process.Up? && s.process.pc.Top? && c.trading(DateOf(s.now))
    && k < |c.schedule| && Due(c, s.now, k)
    && i < |s.log| && s.log[i].kind == c.schedule[k].kind && s.log[i].date == DateOf(s.now)
    && c.schedule[k].kind !in DayBegun(s.process.mem, DateOf(s.now)).executed
    && !Live(s.store, Key(c.schedule[k].kind, DateOf(s.now)), s.now)
  }

  lemma NextIsReady(c: Config, s: State, k: nat, i: nat) returns (j: nat)
    requires Forgotten(c, s, k, i)
    ensures j <= k && Ready(c, s, c.schedule[j]) && c.schedule[j].kind !in DayBegun(s.process.mem, DateOf(s.now)).executed
  {
    var executed := DayBegun(s.process.mem, DateOf(s.now)).executed;
    FirstUnexecutedIsFirst(c.schedule, executed);
    assert c.schedule[k] in c.schedule;
    var event := FirstUnexecuted(c.schedule, executed).value;
    j :| 0 <= j < |c.schedule| && event == c.schedule[j] && c.schedule[j].kind !in executed
         && forall m :: 0 <= m < j ==> c.schedule[m].kind in executed;
  }

  /** A forgotten event completes again, after those before it have been skipped or done. */
  lemma {:induction false} ForgottenRepeats(c: Config, s: State, k: nat, i: nat) returns (run: seq<Action>)
    requires Forgotten(c, s, k, i)
    ensures ValidRun(c, s, run) && Quiet(run) && !UniqueSoFar(After(c, s, run))
    decreases Pending(c.schedule, DayBegun(s.process.mem, DateOf(s.now)).executed, k + 1)
  {
    var mem := DayBegun(s.process.mem, DateOf(s.now));
    var j := NextIsReady(c, s, k, i);
    var event := c.schedule[j];
    if event.kind == c.schedule[k].kind {
      run := ToCompletion(c, s, event);
      var log := After(c, s, run).log;
      assert log[i] == s.log[i] && log[|s.log|] == Completion(event.kind, DateOf(s.now), s.lives);
    } else {
      if Live(s.store, Key(event.kind, DateOf(s.now)), s.now) {
        run := ToSkip(c, s, event);
      } else {
        run := ToMark(c, s, event);
      }
      var next := After(c, s, run);
      PendingDecreases(c.schedule, mem.executed, next.process.mem.executed, k + 1, j);
      var rest := ForgottenRepeats(c, next, k, i);
      RunsCompose(c, s, run, rest);
      run := run + rest;
    }
  }

  lemma {:induction false} Listed(kinds: set<string>) returns (order: seq<string>)
    ensures (set kind | kind in order) == kinds
  {
    if kinds == {} {
      order := [];
    } else {
      var kind := AnElement(kinds);
      var rest := Listed(kinds - {kind});
      order := [kind] + rest;
      assert (set x | x in order) == (set x | x in rest) + {kind};
    }
  }

  lemma MissingKeyRepeats(c: Config, s: State, i: nat) returns (run: seq<Action>)
    requires s.process.Down? && c.trading(DateOf(s.now)) && CompletedAreDue(c, s)
    requires i < |s.log| && s.log[i].date == DateOf(s.now) && !Live(s.store, Key(s.log[i].kind, DateOf(s.now)), s.now)
    ensures ValidRun(c, s, run) && Quiet(run) && !UniqueSoFar(After(c, s, run))
  {
    var order := Listed(LoadExecuted(s.store, DateOf(s.now), s.now));
    var s1 := Step(c, s, Boot(false, order));
    LoadFindsLiveKeys(s.store, DateOf(s.now), s.now, s.log[i].kind);
    assert DueKind(c, s.now, s.log[i].kind);
    var k :| 0 <= k < |c.schedule| && c.schedule[k].kind == s.log[i].kind && Due(c, s.now, k);
    assert s.log[i].kind !in (set kind | kind in order);
    var rest := ForgottenRepeats(c, s1, k, i);
    OneMoreStep(c, s, Boot(false, order), rest);
    run := [Boot(false, order)] + rest;
  }

  /** With a faultless store and no further crash, a restart on a trading day repeats no event,
      whatever it goes on to do, exactly if every event completed on that day has its key. */
  lemma RestartRepeatsIffKeyMissing(c: Config, s: State)
    requires Inv(c, s) && UniqueSoFar(s) && s.process.Down?
    requires c.trading(DateOf(s.now)) && CompletedAreDue(c, s)
    ensures NeverRepeats(c, s) <==> KeysLive(s)
  {
    if KeysLive(s) {
      forall run | ValidRun(c, s, run) && Quiet(run)
        ensures UniqueSoFar(After(c, s, run))
      {
        LiveKeysNeverRepeat(c, s, run);
      }
    } else {
      var i :| 0 <= i < |s.log| && s.log[i].date == DateOf(s.now) && !Live(s.store, Key(s.log[i].kind, s.log[i].date), s.now);
      var run := MissingKeyRepeats(c, s, i);
    }
  }

  // ---- The same for all runs of a schedule in order of time ----

  predicate InTimeOrder(c: Config) {
    forall j, k :: 0 <= j <= k < |c.schedule| ==> c.schedule[j].time <= c.schedule[k].time
  }

  /** What was completed was scheduled, and due on its trading day. */
  ghost predicate CompletedOnTime(c: Config, s: State) {
    forall i :: 0 <= i < |s.log| ==> c.trading(s.log[i].date) && OnTime(c, s.log[i], s.now)
  }

  predicate OnTime(c: Config, done: Completion, now: int) {
    exists k :: 0 <= k < |c.schedule| && c.schedule[k].kind == done.kind && done.date * DAY + c.schedule[k].time <= now
  }

  lemma StepKeepsOnTime(c: Config, s: State, a: Action)
    requires Inv(c, s) && CompletedOnTime(c, s) && Enabled(c, s, a)
    ensures CompletedOnTime(c, Step(c, s, a))
  {
    var s' := Step(c, s, a);
    forall i | 0 <= i < |s'.log|
      ensures c.trading(s'.log[i].date) && OnTime(c, s'.log[i], s'.now)
    {
      if i < |s.log| {
        assert OnTime(c, s.log[i], s.now);
      } else {
        FirstUnexecutedIsFirst(c.schedule, s.process.mem.executed);
      }
    }
  }

  lemma {:induction false} RunKeepsOnTime(c: Config, s: State, run: seq<Action>)
    requires Inv(c, s) && CompletedOnTime(c, s) && ValidRun(c, s, run)
    ensures CompletedOnTime(c, After(c, s, run))
    decreases |run|
  {
    if run != [] {
      StepKeepsInv(c, s, run[0]);
      StepKeepsOnTime(c, s, run[0]);
      RunKeepsOnTime(c, Step(c, s, run[0]), run[1..]);
    }
  }

  lemma OnTimeIsDue(c: Config, s: State)
    requires InTimeOrder(c) && CompletedOnTime(c, s)
    ensures CompletedAreDue(c, s)
  {
    forall i | 0 <= i < |s.log| && s.log[i].date == DateOf(s.now)
      ensures DueKind(c, s.now, s.log[i].kind)
    {
      assert OnTime(c, s.log[i], s.now);
      var k :| 0 <= k < |c.schedule| && c.schedule[k].kind == s.log[i].kind && s.log[i].date * DAY + c.schedule[k].time <= s.now;
      assert Due(c, s.now, k);
    }
  }

  /** After any run that has repeated nothing and left the process stopped, at any time of any
      day, the next start can repeat an event exactly if a key of that day's events is gone. */
  lemma StartAfterRunRepeatsIffKeyMissing(c: Config, now: int, run: seq<Action>)
    requires InTimeOrder(c) && ValidRun(c, Initial(now), run)
    requires var s := After(c, Initial(now), run); s.process.Down? && UniqueSoFar(s)
    ensures var s := After(c, Initial(now), run); NeverRepeats(c, s) <==> KeysLive(s)
  {
    var s := After(c, Initial(now), run);
    RunKeepsInv(c, Initial(now), run);
    RunKeepsOnTime(c, Initial(now), run);
    OnTimeIsDue(c, s);
    if c.trading(DateOf(s.now)) {
      RestartRepeatsIffKeyMissing(c, s);
    } else {
      assert KeysLive(s);
      forall later | ValidRun(c, s, later) && Quiet(later)
        ensures UniqueSoFar(After(c, s, later))
      {
        LiveKeysNeverRepeat(c, s, later);
      }
    }
  }

  // ---- What counts as executed was done ----

  /** This process completed the event on the loop's date, or a key of that date or a later one
      says that some process did. */
  ghost predicate Accounted(s: State, kind: string)
    requires s.process.Up? && s.process.mem.currentDate.Some?
  {
    || CompletedHere(s, kind)
    || exists key :: key in s.store && key.event == kind && s.process.mem.currentDate.value <= key.date
  }

  ghost predicate CompletedHere(s: State, kind: string)
    requires s.process.Up? && s.process.mem.currentDate.Some?
  {
    Completion(kind, s.process.mem.currentDate.value, s.lives) in s.log
  }

  /** Every key was written after a completion of its event on its date or an earlier one. */
  ghost predicate KeysEarned(s: State) {
    forall key :: key in s.store ==> Earned(s, key)
  }

  ghost predicate Earned(s: State, key: Key) {
    exists done :: done in s.log && done.kind == key.event && done.date <= key.date
  }

  ghost predicate NothingInvented(s: State) {
    && KeysEarned(s)
    && (s.process.Up? ==>
          && (s.process.mem.executed != [] || !s.process.pc.Top? ==> s.process.mem.currentDate.Some?)
          && (forall kind :: kind in s.process.mem.executed ==> Accounted(s, kind))
          && (s.process.pc.Marking? ==> CompletedHere(s, s.process.pc.event.kind)))
  }

  lemma StepKeepsKeysEarned(c: Config, s: State, a: Action)
    requires Inv(c, s) && NothingInvented(s) && Enabled(c, s, a)
    ensures KeysEarned(Step(c, s, a))
  {
    var s' := Step(c, s, a);
    forall key | key in s'.store
      ensures Earned(s', key)
    {
      if key in s.store {
        assert Earned(s, key);
        var done :| done in s.log && done.kind == key.event && done.date <= key.date;
        assert done in s'.log;
      } else {
        assert Completion(s.process.pc.event.kind, s.process.mem.currentDate.value, s.lives) in s'.log;
      }
    }
  }

  lemma BootInventsNothing(c: Config, s: State, a: Action, kind: string)
    requires Enabled(c, s, a) && a.Boot?
    ensures var s' := Step(c, s, a);
            kind in s'.process.mem.executed ==> s'.process.mem.currentDate.Some? && Accounted(s', kind)
  {
    var s' := Step(c, s, a);
    if kind in s'.process.mem.executed {
      assert kind in (set k | k in a.order);
      LoadFindsLiveKeys(s.store, DateOf(s.now), s.now, kind);
      assert Key(kind, DateOf(s.now)) in s'.store;
    }
  }

  lemma StepInventsNothing(c: Config, s: State, a: Action, kind: string)
    requires Inv(c, s) && NothingInvented(s) && Enabled(c, s, a) && !a.Boot?
    requires var s' := Step(c, s, a); s'.process.Up? && kind in s'.process.mem.executed
    ensures var s' := Step(c, s, a); s'.process.mem.currentDate.Some? && Accounted(s', kind)
  {
    var s' := Step(c, s, a);
    if kind in s.process.mem.executed {
      assert Accounted(s, kind);
      if !CompletedHere(s, kind) {
        var key :| key in s.store && key.event == kind && s.process.mem.currentDate.value <= key.date;
        assert key in s'.store;
      }
    } else if a.Check? {
      assert Key(kind, s.process.pc.keyDate) in s'.store;
    }
  }

  lemma StepKeepsNothingInvented(c: Config, s: State, a: Action)
    requires Inv(c, s) && NothingInvented(s) && Enabled(c, s, a)
    ensures NothingInvented(Step(c, s, a))
  {
    StepKeepsKeysEarned(c, s, a);
    var s' := Step(c, s, a);
    if s'.process.Up? {
      forall kind | kind in s'.process.mem.executed
        ensures s'.process.mem.currentDate.Some? && Accounted(s', kind)
      {
        if a.Boot? {
          BootInventsNothing(c, s, a, kind);
        } else {
          StepInventsNothing(c, s, a, kind);
        }
      }
      if s'.process.mem.executed != [] {
        assert s'.process.mem.executed[0] in s'.process.mem.executed;
      }
    }
  }

  lemma {:induction false} RunInventsNothing(c: Config, s: State, run: seq<Action>)
    requires Inv(c, s) && NothingInvented(s) && ValidRun(c, s, run)
    ensures NothingInvented(After(c, s, run))
    decreases |run|
  {
    if run != [] {
      StepKeepsInv(c, s, run[0]);
      StepKeepsNothingInvented(c, s, run[0]);
      RunInventsNothing(c, Step(c, s, run[0]), run[1..]);
    }
  }

  /** In any run, with any faults: an event that the loop takes for executed was completed by
      some process, namely by this one on the loop's date, or else a key of that date or a
      later one, itself written after a completion, says so. A failed handler's event is never
      among them on that account. */
  lemma ExecutedWasCompleted(c: Config, now: int, run: seq<Action>, kind: string)
    requires ValidRun(c, Initial(now), run)
    requires var s := After(c, Initial(now), run); s.process.Up? && kind in s.process.mem.executed
    ensures var s := After(c, Initial(now), run);
            && s.process.mem.currentDate.Some? && Accounted(s, kind)
            && exists done :: done in s.log && done.kind == kind
  {
    RunInventsNothing(c, Initial(now), run);
    var s := After(c, Initial(now), run);
    assert Accounted(s, kind);
    if !CompletedHere(s, kind) {
      var key :| key in s.store && key.event == kind && s.process.mem.currentDate.value <= key.date;
      assert Earned(s, key);
    }
  }

  /** A failed handler's event is chosen again at the next turn of the loop, on the same date. */
  lemma FailedIsChosenAgain(c: Config, now: int, run: seq<Action>)
    requires ValidRun(c, Initial(now), run)
    requires var s := After(c, Initial(now), run);
             s.process.Up? && s.process.pc.Running? && s.process.mem.currentDate == Some(DateOf(s.now))
    ensures var s := After(c, Initial(now), run);
            var failed := Step(c, s, HandlerFails);
            && failed.log == s.log && failed.store == s.store && failed.process.mem == s.process.mem
            && Enabled(c, failed, Iterate(false))
            && var again := Step(c, failed, Iterate(false)).process;
               again.pc.Chosen? && again.pc.event == s.process.pc.event && again.pc.at <= s.now
  {
    RunKeepsInv(c, Initial(now), run);
  }

  /** While the loop is paused at its top, it starts and completes nothing. */
  lemma {:induction false} PausedCompletesNothing(c: Config, s: State, run: seq<Action>)
    requires ValidRun(c, s, run) && s.process.Up? && s.process.pc.Top?
    requires forall a :: a in run ==> a.Tick? || a == Iterate(true)
    ensures var end := After(c, s, run);
            end.process.Up? && end.process.pc.Top? && end.log == s.log && end.store == s.store
    decreases |run|
  {
    if run != [] {
      assert run[0] in run && forall a :: a in run[1..] ==> a in run;
      PausedCompletesNothing(c, Step(c, s, run[0]), run[1..]);
    }
  }

  /** The next event, once due, is carried out: skipped if its key is found, and otherwise
      completed and marked. */
  lemma DueEventIsCarriedOut(c: Config, s: State, event: ScheduleEvent) returns (run: seq<Action>)
    requires Ready(c, s, event)
    ensures ValidRun(c, s, run) && Quiet(run)
    ensures var end := After(c, s, run);
            && end.process.Up? && end.process.pc.Top? && event.kind in end.process.mem.executed
            && Live(end.store, Key(event.kind, DateOf(s.now)), s.now)
            && end.log == s.log + (if Live(s.store, Key(event.kind, DateOf(s.now)), s.now) then []
                                   else [Completion(event.kind, DateOf(s.now), s.lives)])
  {
    KeyLifetime(s.now);
    if Live(s.store, Key(event.kind, DateOf(s.now)), s.now) {
      run := ToSkip(c, s, event);
    } else {
      run := ToMark(c, s, event);
    }
  }

  /** An unanswered check lets the event run. */
  lemma UnansweredCheckRuns(c: Config, s: State)
    requires s.process.Up? && s.process.pc.Checking?
    ensures Step(c, s, Check(true)).process == s.process.(pc := Running(s.process.pc.event, s.process.pc.keyDate))
  {
  }
}
